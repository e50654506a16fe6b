/**
 * Pull request summaries, their version keys, and the collection that holds
 * the latest fetched summaries together with the ChangeChecker seeded from
 * the summaries it was created with.
 */
module PullRequests {
  import opened Wrappers
  import opened ChangeCheckers

  /** A point in time, as nanoseconds since the Unix epoch. */
  type Instant = int

  /** The subset of a GitHub pull request the client keeps. */
  datatype PullRequestSummary = PullRequestSummary(
    draft: bool,
    author: string,
    title: string,
    repository: string,
    id: string,
    reviewerCount: int,
    status: string,
    openedAt: Instant,
    url: string)

  /** The last segment of a version key. */
  function DraftFlag(draft: bool): string
  {
    if draft then "Y" else "N"
  }

  /**
   * The version key `repository:id:status:flag`: only these four fields take
   * part in change detection.
   */
  function VersionKey(pr: PullRequestSummary): (key: string)
    ensures |key| == |pr.repository| + |pr.id| + |pr.status| + 4
    ensures key[|key| - 1] == if pr.draft then 'Y' else 'N'
  {
    pr.repository + ":" + pr.id + ":" + pr.status + ":" + DraftFlag(pr.draft)
  }

  /** Two summaries agree on every field a version key is made of. */
  predicate SameVersion(a: PullRequestSummary, b: PullRequestSummary)
  {
    a.repository == b.repository && a.id == b.id && a.status == b.status && a.draft == b.draft
  }

  /** None of the text fields of the key contains the separator. */
  predicate ColonFree(pr: PullRequestSummary)
  {
    ':' !in pr.repository && ':' !in pr.id && ':' !in pr.status
  }

  /** Splits a string at every occurrence of `sep` (like Go's strings.Split). */
  function Split(s: string, sep: char): (parts: seq<string>)
    ensures |parts| >= 1
  {
    if s == [] then [""]
    else
      var rest := Split(s[1..], sep);
      if s[0] == sep then [""] + rest else [[s[0]] + rest[0]] + rest[1..]
  }

  lemma {:induction false} SplitWithoutSeparator(s: string, sep: char)
    requires sep !in s
    ensures Split(s, sep) == [s]
  {
    if s != [] {
      SplitWithoutSeparator(s[1..], sep);
      assert [s[0]] + s[1..] == s;
    }
  }

  lemma {:induction false} SplitAtFirstSeparator(a: string, sep: char, b: string)
    requires sep !in a
    ensures Split(a + [sep] + b, sep) == [a] + Split(b, sep)
  {
    if a == [] {
      assert a + [sep] + b == [sep] + b;
      assert ([sep] + b)[1..] == b;
    } else {
      assert (a + [sep] + b)[1..] == a[1..] + [sep] + b;
      SplitAtFirstSeparator(a[1..], sep, b);
      assert [a[0]] + a[1..] == a;
    }
  }

  /**
   * A version key splits back into exactly its four segments, provided the
   * repository, id and status contain no ':' (GitHub repository names,
   * decimal numbers and the states "open"/"closed" never do). The repository
   * field holds the repository's name without its owner, so pull request 1 of
   * alice/x and pull request 1 of bob/x still share a key: the key identifies
   * a pull request only within one repository name.
   */
  lemma VersionKeyParses(pr: PullRequestSummary)
    requires ColonFree(pr)
    ensures Split(VersionKey(pr), ':') == [pr.repository, pr.id, pr.status, DraftFlag(pr.draft)]
  {
    var flag := DraftFlag(pr.draft);
    assert VersionKey(pr) == pr.repository + [':'] + (pr.id + [':'] + (pr.status + [':'] + flag));
    SplitAtFirstSeparator(pr.repository, ':', pr.id + [':'] + (pr.status + [':'] + flag));
    SplitAtFirstSeparator(pr.id, ':', pr.status + [':'] + flag);
    SplitAtFirstSeparator(pr.status, ':', flag);
    SplitWithoutSeparator(flag, ':');
  }

  /**
   * For separator-free fields, two summaries share a version key exactly when
   * they agree on repository, id, status and draft flag.
   */
  lemma VersionKeyInjective(a: PullRequestSummary, b: PullRequestSummary)
    requires ColonFree(a) && ColonFree(b)
    ensures VersionKey(a) == VersionKey(b) <==> SameVersion(a, b)
  {
    if VersionKey(a) == VersionKey(b) {
      VersionKeyParses(a);
      VersionKeyParses(b);
      assert [a.repository, a.id, a.status, DraftFlag(a.draft)][3] == DraftFlag(b.draft);
      assert "Y"[0] != "N"[0];
    }
  }

  /** Author, title, reviewer count, opening time and URL do not reach the key. */
  lemma VersionKeyIgnoresVolatileFields(a: PullRequestSummary, b: PullRequestSummary)
    requires SameVersion(a, b)
    ensures VersionKey(a) == VersionKey(b)
  {
  }

  /** Flipping only the draft flag changes the key (its last character, Y against N). */
  lemma VersionKeySeesDraft(pr: PullRequestSummary)
    ensures VersionKey(pr) != VersionKey(pr.(draft := !pr.draft))
  {
  }

  /**
   * Without the separator-free condition the key is ambiguous: repository
   * "a:b" with id "1" and repository "a" with id "b:1" share a key.
   */
  lemma VersionKeyCollision()
    ensures var x := PullRequestSummary(false, "", "", "a:b", "1", 0, "open", 0, "");
            var y := x.(repository := "a", id := "b:1");
            VersionKey(x) == VersionKey(y) && !SameVersion(x, y)
  {
  }

  /** The version keys of a list of summaries, in the same order. */
  function KeysOf(items: seq<PullRequestSummary>): (keys: seq<string>)
    ensures |keys| == |items|
    ensures forall i :: 0 <= i < |items| ==> keys[i] == VersionKey(items[i])
  {
    if items == [] then [] else [VersionKey(items[0])] + KeysOf(items[1..])
  }

  /**
   * Images taken element by element: if ks and kt are f applied to every
   * element of s and t, and t reorders s, then kt reorders ks.
   */
  lemma {:induction false} ImagesOfPermutation<A, B>(f: A -> B, s: seq<A>, t: seq<A>, ks: seq<B>, kt: seq<B>)
    requires multiset(s) == multiset(t)
    requires |ks| == |s| && forall i :: 0 <= i < |s| ==> ks[i] == f(s[i])
    requires |kt| == |t| && forall i :: 0 <= i < |t| ==> kt[i] == f(t[i])
    ensures multiset(ks) == multiset(kt)
    decreases |s|
  {
    if s == [] {
      assert |t| == |multiset(t)| == 0;
    } else {
      assert s[0] in multiset(t) by { assert s[0] in multiset(s); }
      var j :| 0 <= j < |t| && t[j] == s[0];
      var rest, krest := t[..j] + t[j + 1..], kt[..j] + kt[j + 1..];
      RemoveMatching(s, t, j);
      assert forall i :: 0 <= i < |rest| ==> krest[i] == f(rest[i]) by {
        forall i | 0 <= i < |rest|
          ensures krest[i] == f(rest[i])
        {
          if i < j {
            assert krest[i] == kt[i] && rest[i] == t[i];
          } else {
            assert krest[i] == kt[i + 1] && rest[i] == t[i + 1];
          }
        }
      }
      ImagesOfPermutation(f, s[1..], rest, ks[1..], krest);
      assert ks == [ks[0]] + ks[1..] && kt == kt[..j] + ([kt[j]] + kt[j + 1..]);
      MultisetSplit(kt[..j], kt[j], kt[j + 1..]);
    }
  }

  /** Taking x out of the middle of a sequence takes it out of its multiset. */
  lemma MultisetSplit<T>(front: seq<T>, x: T, back: seq<T>)
    ensures multiset(front + ([x] + back)) == multiset{x} + multiset(front + back)
  {
    calc {
      multiset(front + ([x] + back));
      multiset(front) + (multiset([x]) + multiset(back));
      multiset{x} + multiset(front + back);
    }
  }

  /** Taking the same element out of two equal multisets leaves equal multisets. */
  lemma RemoveMatching<T>(s: seq<T>, t: seq<T>, j: nat)
    requires s != [] && j < |t| && t[j] == s[0]
    requires multiset(s) == multiset(t)
    ensures multiset(s[1..]) == multiset(t[..j] + t[j + 1..])
  {
    assert s == [s[0]] + s[1..];
    assert t == t[..j] + [t[j]] + t[j + 1..];
    calc {
      multiset(s[1..]);
      multiset(s) - multiset{s[0]};
      multiset(t) - multiset{t[j]};
      multiset(t[..j]) + multiset(t[j + 1..]);
      multiset(t[..j] + t[j + 1..]);
    }
  }

  /** Reordering the summaries reorders their keys: the key multiset stays the same. */
  lemma KeysOfPermutation(s: seq<PullRequestSummary>, t: seq<PullRequestSummary>)
    requires multiset(s) == multiset(t)
    ensures multiset(KeysOf(s)) == multiset(KeysOf(t))
  {
    ImagesOfPermutation(VersionKey, s, t, KeysOf(s), KeysOf(t));
  }

  /** The key lists of successive fetches, one per fetch. */
  function FetchKeys(fetches: seq<seq<PullRequestSummary>>): (keys: seq<seq<string>>)
    ensures |keys| == |fetches|
    ensures forall i :: 0 <= i < |fetches| ==> keys[i] == KeysOf(fetches[i])
  {
    seq(|fetches|, i requires 0 <= i < |fetches| => KeysOf(fetches[i]))
  }

  /**
   * PullRequestSummaryCollection: the summaries of the latest fetch and the
   * ChangeChecker bound to the collection when it was created.
   */
  class PullRequestSummaryCollection {
    var dirtyChecker: ChangeChecker?
    var items: seq<PullRequestSummary>

    ghost predicate Valid()
      reads this, dirtyChecker
    {
      dirtyChecker != null && dirtyChecker.Valid()
    }

    /**
     * NewPullRequestSummaryCollection: stores the summaries, then seeds a
     * ChangeChecker from their keys with no generator, hence the default
     * order-insensitive policy.
     */
    constructor (items: seq<PullRequestSummary>)
      ensures Valid() && fresh(dirtyChecker)
      ensures this.items == items
      ensures dirtyChecker.genKeyChecker == DefaultGen
      ensures dirtyChecker.baseline == KeysOf(items)
    {
      this.items := items;
      dirtyChecker := null;
      new;
      var keys := VersionKeys();
      dirtyChecker := new ChangeChecker(keys, None);
    }

    /** VersionKeys: fills a slice of the held summaries' keys, position by position. */
    method VersionKeys() returns (versionKeys: seq<string>)
      ensures versionKeys == KeysOf(items)
    {
      var keys := new string[|items|];
      for idx := 0 to |items|
        invariant forall j :: 0 <= j < idx ==> keys[j] == VersionKey(items[j])
      {
        keys[idx] := VersionKey(items[idx]);
      }
      versionKeys := keys[..];
    }

    /**
     * Update as the source has it: replaces the summaries wholesale and
     * reports whether the checker sees their keys as changed. The checker is
     * not advanced, so it still holds the baseline it was created with.
     */
    method Update(latestItems: seq<PullRequestSummary>) returns (changed: bool)
      requires Valid()
      modifies this`items
      ensures Valid()
      ensures items == latestItems
      ensures changed <==> !Accepts(Generate(dirtyChecker.genKeyChecker, dirtyChecker.baseline), KeysOf(latestItems))
      ensures dirtyChecker.baseline == old(dirtyChecker.baseline)
    {
      items := latestItems;
      var keys := VersionKeys();
      changed := dirtyChecker.HasChanged(keys);
    }

    /** Update over the corrected HasChangedAdvancing: a change becomes the new baseline. */
    method UpdateAdvancing(latestItems: seq<PullRequestSummary>) returns (changed: bool)
      requires Valid()
      modifies this`items, dirtyChecker
      ensures Valid()
      ensures items == latestItems
      ensures changed <==> !Accepts(old(dirtyChecker.keyChecker), KeysOf(latestItems))
      ensures dirtyChecker.genKeyChecker == old(dirtyChecker.genKeyChecker)
      ensures dirtyChecker.baseline == if changed then KeysOf(latestItems) else old(dirtyChecker.baseline)
    {
      items := latestItems;
      var keys := VersionKeys();
      changed := dirtyChecker.HasChangedAdvancing(keys);
    }

    /**
     * Update called once per fetch, in order, as successive poll ticks do:
     * the verdicts are those of the checker the collection was created with.
     */
    method UpdateEach(fetches: seq<seq<PullRequestSummary>>) returns (verdicts: seq<bool>)
      requires Valid()
      modifies this`items
      ensures Valid()
      ensures verdicts == VerdictsAsWritten(dirtyChecker.keyChecker, FetchKeys(fetches))
      ensures dirtyChecker.baseline == old(dirtyChecker.baseline)
      ensures items == if fetches == [] then old(items) else fetches[|fetches| - 1]
    {
      ghost var keys := FetchKeys(fetches);
      ghost var checker := dirtyChecker.keyChecker;
      verdicts := [];
      for i := 0 to |fetches|
        invariant Valid() && dirtyChecker.keyChecker == checker
        invariant verdicts == VerdictsAsWritten(checker, keys[..i])
        invariant items == if i == 0 then old(items) else fetches[i - 1]
      {
        AsWrittenStep(checker, keys, i);
        var changed := Update(fetches[i]);
        verdicts := verdicts + [changed];
      }
      assert keys[..|fetches|] == keys;
    }

    /**
     * UpdateAdvancing called once per fetch, in order: the verdicts are those
     * of a baseline that moves to every fetch reported as a change.
     */
    method UpdateEachAdvancing(fetches: seq<seq<PullRequestSummary>>) returns (verdicts: seq<bool>)
      requires Valid()
      modifies this`items, dirtyChecker
      ensures Valid()
      ensures dirtyChecker.genKeyChecker == old(dirtyChecker.genKeyChecker)
      ensures verdicts == VerdictsAdvancing(dirtyChecker.genKeyChecker, old(dirtyChecker.baseline), FetchKeys(fetches))
      ensures dirtyChecker.baseline == BaselineAfter(dirtyChecker.genKeyChecker, old(dirtyChecker.baseline), FetchKeys(fetches))
      ensures items == if fetches == [] then old(items) else fetches[|fetches| - 1]
    {
      ghost var keys := FetchKeys(fetches);
      ghost var gen := dirtyChecker.genKeyChecker;
      ghost var b0 := dirtyChecker.baseline;
      verdicts := [];
      for i := 0 to |fetches|
        invariant Valid() && dirtyChecker.genKeyChecker == gen
        invariant AdvancedTo(gen, b0, keys, i, verdicts, dirtyChecker.baseline)
        invariant items == if i == 0 then old(items) else fetches[i - 1]
      {
        AdvancedToStep(gen, b0, keys, i, verdicts, dirtyChecker.baseline);
        var changed := UpdateAdvancing(fetches[i]);
        verdicts := verdicts + [changed];
      }
      AdvancedToEnd(gen, b0, keys, verdicts, dirtyChecker.baseline);
    }
  }

  // ---------------------------------------------------------------------
  // What Update reports, stated over the key lists.
  // ---------------------------------------------------------------------

  /**
   * A collection is created with the default checker over its items' keys;
   * an update whose keys are the same in any order is not a change.
   */
  lemma ReorderedKeysUnchanged(items: seq<PullRequestSummary>, latestItems: seq<PullRequestSummary>)
    requires multiset(KeysOf(latestItems)) == multiset(KeysOf(items))
    ensures Accepts(Generate(DefaultGen, KeysOf(items)), KeysOf(latestItems))
  {
    DefaultIgnoresOrder(KeysOf(items), KeysOf(latestItems));
  }

  /** In particular, updating with the same summaries reordered is not a change. */
  lemma ReorderedItemsUnchanged(items: seq<PullRequestSummary>, latestItems: seq<PullRequestSummary>)
    requires multiset(latestItems) == multiset(items)
    ensures Accepts(Generate(DefaultGen, KeysOf(items)), KeysOf(latestItems))
  {
    KeysOfPermutation(latestItems, items);
    ReorderedKeysUnchanged(items, latestItems);
  }

  /**
   * A checker seeded with the keys of a non-empty list rejects the empty list,
   * whatever the policy. As written the seed is the construction-time list, so
   * only a collection built non-empty reports emptying as a change (see
   * `GrowThenEmptyScenario`).
   */
  lemma EmptyingIsChange(gen: KeyCheckerGen, items: seq<PullRequestSummary>)
    requires |items| > 0
    ensures !Accepts(Generate(gen, KeysOf(items)), KeysOf([]))
  {
  }

  /**
   * Edits confined to title, author, reviewer count, opening time or URL
   * leave the key list as it was, so a checker seeded with the original list
   * accepts the edited one under either policy. The comparison is with the
   * checker's baseline, not with the previous update.
   */
  lemma VolatileEditsUnchanged(gen: KeyCheckerGen, items: seq<PullRequestSummary>, latestItems: seq<PullRequestSummary>)
    requires |latestItems| == |items|
    requires forall i :: 0 <= i < |items| ==> SameVersion(items[i], latestItems[i])
    ensures KeysOf(latestItems) == KeysOf(items)
    ensures Accepts(Generate(gen, KeysOf(items)), KeysOf(latestItems))
  {
  }

  // ---------------------------------------------------------------------
  // Three successive fetches: the same pull request, then its state moved
  // from open to closed, then the closed one again.
  // ---------------------------------------------------------------------

  /** As written: the third fetch is still compared with the first and reported as a change. */
  method StaleBaselineScenario() returns (verdicts: seq<bool>)
    ensures verdicts == [false, true, true]
  {
    var open := PullRequestSummary(false, "octocat", "Fix", "a", "1", 0, "open", 0, "");
    var closed := open.(status := "closed");
    assert VersionKey(open) != VersionKey(closed) by {
      assert VersionKey(open)[4] != VersionKey(closed)[4];
    }
    var collection := new PullRequestSummaryCollection([open]);
    var first := collection.Update([open]);
    var second := collection.Update([closed]);
    var third := collection.Update([closed]);
    verdicts := [first, second, third];
  }

  /** With the baseline advanced, the repeated fetch of the closed pull request is not a change. */
  method AdvancingBaselineScenario() returns (verdicts: seq<bool>)
    ensures verdicts == [false, true, false]
  {
    var open := PullRequestSummary(false, "octocat", "Fix", "a", "1", 0, "open", 0, "");
    var closed := open.(status := "closed");
    assert VersionKey(open) != VersionKey(closed) by {
      assert VersionKey(open)[4] != VersionKey(closed)[4];
    }
    assert KeysOf([open]) == [VersionKey(open)] && KeysOf([closed]) == [VersionKey(closed)];
    var collection := new PullRequestSummaryCollection([open]);
    var first := collection.UpdateAdvancing([open]);
    assert !first by { AcceptsOwnBaseline(DefaultGen, [VersionKey(open)]); }
    var second := collection.UpdateAdvancing([closed]);
    assert second;
    var third := collection.UpdateAdvancing([closed]);
    assert !third by { AcceptsOwnBaseline(DefaultGen, [VersionKey(closed)]); }
    verdicts := [first, second, third];
  }

  /**
   * As written: a collection built empty, updated with one pull request and
   * then with none again. The growth is a change; the emptying is compared
   * with the empty construction-time list and is not reported.
   */
  method GrowThenEmptyScenario() returns (verdicts: seq<bool>)
    ensures verdicts == [true, false]
  {
    var pr := PullRequestSummary(false, "octocat", "Fix", "a", "1", 0, "open", 0, "");
    var collection := new PullRequestSummaryCollection([]);
    var grown := collection.Update([pr]);
    var emptied := collection.Update([]);
    verdicts := [grown, emptied];
  }

  /** Successive corrected updates of a fresh collection run on the default policy from its initial keys. */
  method FreshUpdateEachAdvancing(items: seq<PullRequestSummary>, fetches: seq<seq<PullRequestSummary>>)
    returns (verdicts: seq<bool>)
    ensures verdicts == VerdictsAdvancing(DefaultGen, KeysOf(items), FetchKeys(fetches))
  {
    var collection := new PullRequestSummaryCollection(items);
    verdicts := collection.UpdateEachAdvancing(fetches);
  }
}
