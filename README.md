# prmon change detection, in Dafny

prmon polls GitHub for the pull requests assigned to and created by a user
and refreshes its display only when the fetched collection has materially
changed. This project models the part that decides "has it changed":

- `ChangeCheckers` (`change_checker.dfy`): the two key-checker policies of
  `change_checker.go` — `DEFAULT_KEY_CHECKER` (order-insensitive: same length
  and every new key in the baseline's key set) and `SIMPLE_KEY_CHECKER`
  (order-sensitive: same key at every position) — and the `ChangeChecker`
  that holds a generator and a current key checker. Go closures become the
  tagged value `KeyChecker = Default(keyList, keyPresent) | Simple(keyList)`
  carrying exactly what each closure captures; a generator is
  `KeyCheckerGen = DefaultGen | SimpleGen`, and a nil generator is `None`.
  The generator's loop that fills the presence set is the method
  `DefaultKeyChecker`, proved to collect exactly the baseline's keys; the
  closures' early-return scans are the method `Check`, proved against the
  predicate `Accepts`.
- `PullRequests` (`pull_request.dfy`): `PullRequestSummary`, its version key
  `repository:id:status:Y|N`, and `PullRequestSummaryCollection`, a class
  holding `items` and its `dirtyChecker`, with `VersionKeys` (the loop filling
  a preallocated slice) and `Update`.
- `Wrappers` (`wrappers.dfy`): `Option`, standing for a possibly nil value.

`HasChanged` has a value receiver in the source, so the key checker it
regenerates on a change is written to a copy and discarded: the stored
checker keeps the baseline from construction time for good. The model follows
the code: `ChangeChecker.HasChanged` has no `modifies` clause, and
`PullRequestSummaryCollection.Update` uses it. Its documentation comment
describes the advancing behaviour instead; that behaviour is modelled
separately as `HasChangedAdvancing` / `UpdateAdvancing`, and the difference
is recorded under Findings.

`HasChanged` takes the key list a `ChangeCheckableCollection` yields rather
than the collection itself: the only implementer is the pull request
collection, whose `VersionKeys` is a pure function of its items.

## Model

| member | source | states |
|---|---|---|
| `ChangeCheckers.DefaultKeyChecker` | internal/client/github/change_checker.go:27-33 | the generated default checker keeps the baseline list and a presence set holding exactly the keys of the baseline |
| `ChangeCheckers.SimpleKeyChecker` | internal/client/github/change_checker.go:53-66 | the generated simple checker accepts a list exactly when it is the baseline list |
| `ChangeCheckers.Check` | internal/client/github/change_checker.go:34-66 | running a key checker (length check, then the early-return scan) answers "equal" exactly when `Accepts` holds |
| `ChangeCheckers.DefaultLengthMismatch` | internal/client/github/change_checker.go:35-38 | the default checker rejects every list whose length differs from the baseline's |
| `ChangeCheckers.DefaultAcceptsIff` | internal/client/github/change_checker.go:27-49 | the default checker accepts a list iff it has the baseline's length and its key set is contained in the baseline's |
| `ChangeCheckers.DefaultIgnoresOrder` | internal/client/github/change_checker.go:25-49 | every permutation of the baseline is accepted by the default checker |
| `ChangeCheckers.DefaultDuplicateBlindSpot` | internal/client/github/change_checker.go:29-46 | with baseline [a, b] the default checker accepts [a, a], whose key counts differ; the simple checker rejects it |
| `ChangeCheckers.SimpleAcceptsIff` | internal/client/github/change_checker.go:53-66 | the simple checker accepts a list iff it equals the baseline element by element |
| `ChangeCheckers.SimpleIsOrderSensitive` | internal/client/github/change_checker.go:51-66 | swapping two distinct keys is rejected by the simple checker and accepted by the default one |
| `ChangeCheckers.AcceptsOwnBaseline` | internal/client/github/change_checker.go:27-66 | both policies accept their own baseline, the empty list included |
| `ChangeCheckers.SimpleImpliesDefault` | internal/client/github/change_checker.go:27-66 | every list the simple checker accepts is accepted by the default checker over the same baseline |
| `ChangeCheckers.ChangeChecker.constructor` | internal/client/github/change_checker.go:74-82 | NewChangeChecker stores the given generator, or the default one when none is given, and a key checker generated by it from the collection's keys at construction time |
| `ChangeCheckers.ChangeChecker.HasChanged` | internal/client/github/change_checker.go:87-96 | reports a change exactly when the current key checker rejects the key list, and changes no field of the checker |
| `ChangeCheckers.ChangeChecker.HasChangedAdvancing` | internal/client/github/change_checker.go:84-86 | the documented behaviour: same verdict, and on a change the stored baseline becomes the new key list |
| `ChangeCheckers.VerdictsAsWritten` | internal/client/github/change_checker.go:87-96 | over successive calls, verdict i is the construction-time checker's rejection of fetch i |
| `ChangeCheckers.VerdictsAdvancing` | internal/client/github/change_checker.go:84-95 | successive calls with the baseline advanced on each change yield one verdict per fetch, the first being the initial checker's rejection of the first fetch |
| `ChangeCheckers.RepeatedChangeAsWritten` | internal/client/github/change_checker.go:87-96 | as written, a key list differing from the initial baseline is reported as changed on every repeated fetch |
| `ChangeCheckers.RepeatedChangeAdvancing` | internal/client/github/change_checker.go:84-95 | with the baseline advanced, the first such fetch is a change and the repeats are not |
| `ChangeCheckers.RevertAfterChange` | internal/client/github/change_checker.go:87-95 | as written, after a change from b0 to b1 a fetch back to b0 is not reported; with the baseline advanced it is |
| `ChangeCheckers.SettledAdvancing` | internal/client/github/change_checker.go:88-91 | repeatedly fetching the current baseline is never a change |
| `PullRequests.VersionKey` | internal/client/github/pull_request.go:82-89 | the key is the four fields plus three separators, ending in Y for a draft and N otherwise |
| `PullRequests.VersionKeyParses` | internal/client/github/pull_request.go:80-89 | for separator-free fields, splitting the key at ':' gives back repository, id, status and the draft flag |
| `PullRequests.VersionKeyInjective` | internal/client/github/pull_request.go:80-89 | for separator-free fields, two summaries share a key iff they agree on repository, id, status and draft |
| `PullRequests.VersionKeyIgnoresVolatileFields` | internal/client/github/pull_request.go:80-88 | summaries agreeing on repository, id, status and draft share a key whatever their author, title, reviewer count, opening time and URL |
| `PullRequests.VersionKeySeesDraft` | internal/client/github/pull_request.go:83-86 | summaries differing only in the draft flag get different keys |
| `PullRequests.VersionKeyCollision` | internal/client/github/pull_request.go:88 | a ':' inside the repository or id can make two different summaries share a key |
| `PullRequests.KeysOf` | internal/client/github/pull_request.go:33-38 | the key list has the items' length and its i-th key is the key of the i-th item |
| `PullRequests.KeysOfPermutation` | internal/client/github/pull_request.go:33-38 | reordering the items reorders their keys: the key multiset is unchanged |
| `PullRequests.PullRequestSummaryCollection.constructor` | internal/client/github/pull_request.go:23-30 | the collection holds the given items and a fresh checker with the default policy seeded with their keys |
| `PullRequests.PullRequestSummaryCollection.VersionKeys` | internal/client/github/pull_request.go:33-39 | returns the held items' keys, in order |
| `PullRequests.PullRequestSummaryCollection.Update` | internal/client/github/pull_request.go:43-46 | items become exactly the new items; the verdict is the stored checker's rejection of their keys; the baseline stays |
| `PullRequests.PullRequestSummaryCollection.UpdateAdvancing` | internal/client/github/pull_request.go:43-46 | Update over HasChangedAdvancing: same replacement, and on a change the new keys become the baseline |
| `PullRequests.PullRequestSummaryCollection.UpdateEach` | internal/client/github/poller.go:104-117 | one `Update` per poll tick (pull_request.go:43-46) yields exactly `VerdictsAsWritten` of the construction-time checker over the fetches' keys; the baseline never moves and the items are the last fetch's |
| `PullRequests.PullRequestSummaryCollection.UpdateEachAdvancing` | internal/client/github/poller.go:104-117 | one `UpdateAdvancing` per poll tick yields exactly `VerdictsAdvancing` from the initial baseline over the fetches' keys; the generator is kept, the baseline ends as `BaselineAfter` and the items are the last fetch's |
| `PullRequests.ReorderedKeysUnchanged` | internal/client/github/pull_request.go:23-29 | a fresh collection's checker accepts any update whose keys are its initial keys in some order |
| `PullRequests.ReorderedItemsUnchanged` | internal/client/github/pull_request.go:23-46 | updating a fresh collection with its own items reordered is not a change |
| `PullRequests.EmptyingIsChange` | internal/client/github/pull_request.go:43-46 | a checker seeded with a non-empty key list rejects the empty list under either policy (as written the seed is the construction-time list, so only a collection built non-empty reports emptying as a change) |
| `PullRequests.VolatileEditsUnchanged` | internal/client/github/pull_request.go:80-88 | edits confined to title, author, reviewer count, opening time or URL leave the key list equal, so a checker seeded with the original list accepts the edited one (the comparison is with the checker's baseline, not with the previous update) |
| `PullRequests.GrowThenEmptyScenario` | internal/client/github/change_checker.go:87-95 | as written, a collection built empty and updated with one pull request, then with none, reports changed, then unchanged |
| `PullRequests.StaleBaselineScenario` | internal/client/github/change_checker.go:87-95 | fetching open, closed, closed after starting from open reports unchanged, changed, changed |
| `PullRequests.FreshUpdateEachAdvancing` | internal/client/github/pull_request.go:23-30 | a newly created collection's corrected updates run under the default policy from its initial items' keys |
| `PullRequests.AdvancingBaselineScenario` | internal/client/github/change_checker.go:84-86 | the same fetches with the baseline advanced report unchanged, changed, unchanged |

## Findings

| source | as written | input that shows it | evidently intended | confidence | as-written member | corrected member |
|---|---|---|---|---|---|---|
| internal/client/github/change_checker.go:87-95 | `HasChanged` has a value receiver, so the key checker regenerated at line 94 goes to a copy and the stored baseline never advances | collection created from an open pull request; fetches: open, closed, closed; the third is still reported as changed | as its comment at lines 84-86 says, a change regenerates the stored key checker, so the repeated fetch is unchanged | high, not executed | `PullRequests.StaleBaselineScenario` | `PullRequests.AdvancingBaselineScenario` |

The general forms: `PullRequestSummaryCollection.UpdateEach` proves that
successive `Update` calls yield `ChangeCheckers.VerdictsAsWritten` of the
construction-time checker, about which `ChangeCheckers.RepeatedChangeAsWritten`
shows that a repeated changed fetch is reported every time and
`ChangeCheckers.RevertAfterChange` that a fetch going back to the initial keys
is not reported at all, nor, by
`PullRequests.GrowThenEmptyScenario`, is emptying a collection built empty
after it grew (so the tick in poller.go:114 sends no signal unless the other
collection changed, and the display keeps the older data). `PullRequestSummaryCollection.UpdateEachAdvancing`
ties the corrected calls to `ChangeCheckers.VerdictsAdvancing`, about which
`ChangeCheckers.RepeatedChangeAdvancing` proves the change is reported once.
The collection's `Update` keeps the as-written behaviour, because that is what
the program does; `UpdateAdvancing` is the corrected alternative.

## Left out

- internal/client/github/poller.go: the GitHub API calls, OAuth, the timer loop, context cancellation, the mutex and the notification channels are I/O and concurrency. Of its logic, a tick calls `Update` on both collections (both calls always run) and signals new data when either returns true (poller.go:111-115); this is not modelled further.
- `NewPullRequestFromAPI` (pull_request.go:62-78): a mapping over go-github getters whose types are not part of this model.
- internal/pkg/tui and cmd/: terminal rendering, colours, clock-based thresholds, the command line and the tray icon.
- The `ChangeCheckableCollection` interface: `HasChanged` receives the key list the collection yields instead of the collection.
- Go's `map[string]struct{}` is modelled as `set<string>`; `time.Time` as an integer instant, since only its identity matters here.
- The key-checker generators are modelled by a closed choice of the two policies the source defines; arbitrary caller-supplied generators are not modelled.
