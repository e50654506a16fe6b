/**
 * The change detector of the GitHub client: two key-checker policies, built
 * from a baseline list of version keys, and the ChangeChecker that asks the
 * current key checker whether a collection's keys are still "equal".
 *
 * A Go key checker is a closure over its baseline. Here it is a tagged value
 * that carries what the closure captures: the baseline key list and, for the
 * default policy, the set of keys present in it (the Go map used as a set).
 */
module ChangeCheckers {
  import opened Wrappers

  /** The comparison policy a ChangeChecker regenerates its key checker with. */
  datatype KeyCheckerGen = DefaultGen | SimpleGen

  /** A key checker: the state its closure captured at generation time. */
  datatype KeyChecker =
    | Default(keyList: seq<string>, keyPresent: set<string>)
    | Simple(keyList: seq<string>)

  /** The set of keys occurring in a key list. */
  function KeySet(keys: seq<string>): set<string>
  {
    set k | k in keys
  }

  /** The key checker a policy generates from a baseline key list. */
  function Generate(gen: KeyCheckerGen, keyList: seq<string>): KeyChecker
  {
    match gen
    case DefaultGen => Default(keyList, KeySet(keyList))
    case SimpleGen => Simple(keyList)
  }

  /**
   * What calling the key checker on a new key list answers: true means the
   * lists are "equal" (no change). The default checker wants the same length
   * and every new key present in the captured set; the simple one wants the
   * same length and the same key at every position.
   */
  predicate Accepts(c: KeyChecker, newKeyList: seq<string>)
  {
    match c
    case Default(keyList, keyPresent) =>
      |newKeyList| == |keyList| &&
      forall i :: 0 <= i < |newKeyList| ==> newKeyList[i] in keyPresent
    case Simple(keyList) =>
      |newKeyList| == |keyList| &&
      forall i :: 0 <= i < |keyList| ==> keyList[i] == newKeyList[i]
  }

  /** DEFAULT_KEY_CHECKER: fills the presence set in a loop over the baseline. */
  method DefaultKeyChecker(keyList: seq<string>) returns (c: KeyChecker)
    ensures c.Default? && c.keyList == keyList
    ensures forall k :: k in c.keyPresent <==> k in keyList
  {
    var keyPresent: set<string> := {};
    for i := 0 to |keyList|
      invariant forall k :: k in keyPresent <==> k in keyList[..i]
    {
      assert keyList[..i + 1] == keyList[..i] + [keyList[i]];
      keyPresent := keyPresent + {keyList[i]};
    }
    assert keyList[..|keyList|] == keyList;
    c := Default(keyList, keyPresent);
  }

  /** SIMPLE_KEY_CHECKER: captures the baseline list as it is. */
  method SimpleKeyChecker(keyList: seq<string>) returns (c: KeyChecker)
    ensures c.Simple? && c.keyList == keyList
    ensures forall l :: Accepts(c, l) <==> l == keyList
  {
    c := Simple(keyList);
    forall l ensures Accepts(c, l) <==> l == keyList {
      SimpleAcceptsIff(keyList, l);
    }
  }

  /** Calls a generator on a baseline key list. */
  method GenerateChecker(gen: KeyCheckerGen, keyList: seq<string>) returns (c: KeyChecker)
    ensures c == Generate(gen, keyList)
  {
    match gen
    case DefaultGen =>
      c := DefaultKeyChecker(keyList);
      assert c.keyPresent == KeySet(keyList);
    case SimpleGen =>
      c := SimpleKeyChecker(keyList);
  }

  /**
   * Runs a key checker on a new key list: the length check first, then the
   * early-return scan of the key checker's policy.
   */
  method Check(c: KeyChecker, newKeyList: seq<string>) returns (equal: bool)
    ensures equal <==> Accepts(c, newKeyList)
  {
    if |newKeyList| != |c.keyList| {
      return false;
    }
    match c {
      case Default(_, keyPresent) =>
        for i := 0 to |newKeyList|
          invariant forall j :: 0 <= j < i ==> newKeyList[j] in keyPresent
        {
          if newKeyList[i] !in keyPresent {
            return false;
          }
        }
      case Simple(keyList) =>
        for idx := 0 to |keyList|
          invariant forall j :: 0 <= j < idx ==> keyList[j] == newKeyList[j]
        {
          if keyList[idx] != newKeyList[idx] {
            return false;
          }
        }
    }
    return true;
  }

  // ---------------------------------------------------------------------
  // The two policies, characterised against their baseline.
  // ---------------------------------------------------------------------

  /** The default checker rejects every list whose length differs from the baseline's. */
  lemma DefaultLengthMismatch(baseline: seq<string>, newKeyList: seq<string>)
    requires |newKeyList| != |baseline|
    ensures !Accepts(Generate(DefaultGen, baseline), newKeyList)
  {
  }

  /**
   * The default checker accepts exactly the lists of the baseline's length
   * all of whose keys occur somewhere in the baseline.
   */
  lemma DefaultAcceptsIff(baseline: seq<string>, newKeyList: seq<string>)
    ensures Accepts(Generate(DefaultGen, baseline), newKeyList) <==>
            |newKeyList| == |baseline| && KeySet(newKeyList) <= KeySet(baseline)
  {
  }

  /** Every reordering of the baseline (same keys, same counts) is "equal" for the default checker. */
  lemma {:induction false} DefaultIgnoresOrder(baseline: seq<string>, newKeyList: seq<string>)
    requires multiset(newKeyList) == multiset(baseline)
    ensures Accepts(Generate(DefaultGen, baseline), newKeyList)
  {
    assert |newKeyList| == |multiset(newKeyList)| == |multiset(baseline)| == |baseline|;
    forall i | 0 <= i < |newKeyList| ensures newKeyList[i] in KeySet(baseline) {
      assert newKeyList[i] in multiset(newKeyList);
    }
  }

  /**
   * The default checker's blind spot: [a, b] and [a, a] hold different key
   * counts, yet the second is "equal" to the first.
   */
  lemma DefaultDuplicateBlindSpot()
    ensures multiset(["a", "a"]) != multiset(["a", "b"])
    ensures Accepts(Generate(DefaultGen, ["a", "b"]), ["a", "a"])
    ensures !Accepts(Generate(SimpleGen, ["a", "b"]), ["a", "a"])
  {
  }

  /** The simple checker accepts a list exactly when it is the baseline itself. */
  lemma SimpleAcceptsIff(baseline: seq<string>, newKeyList: seq<string>)
    ensures Accepts(Generate(SimpleGen, baseline), newKeyList) <==> newKeyList == baseline
  {
  }

  /** Swapping two distinct keys is a change for the simple checker but not for the default one. */
  lemma SimpleIsOrderSensitive(a: string, b: string)
    requires a != b
    ensures !Accepts(Generate(SimpleGen, [a, b]), [b, a])
    ensures Accepts(Generate(DefaultGen, [a, b]), [b, a])
  {
    DefaultIgnoresOrder([a, b], [b, a]);
  }

  /** Both policies accept their own baseline; in particular an empty list matches an empty baseline. */
  lemma AcceptsOwnBaseline(gen: KeyCheckerGen, baseline: seq<string>)
    ensures Accepts(Generate(gen, baseline), baseline)
  {
  }

  /** Whatever the simple checker accepts, the default checker accepts too. */
  lemma SimpleImpliesDefault(baseline: seq<string>, newKeyList: seq<string>)
    requires Accepts(Generate(SimpleGen, baseline), newKeyList)
    ensures Accepts(Generate(DefaultGen, baseline), newKeyList)
  {
  }

  // ---------------------------------------------------------------------
  // The ChangeChecker.
  // ---------------------------------------------------------------------

  class ChangeChecker {
    var genKeyChecker: KeyCheckerGen
    var keyChecker: KeyChecker
    /** The key list the current key checker was generated from. */
    ghost var baseline: seq<string>

    ghost predicate Valid()
      reads this
    {
      keyChecker == Generate(genKeyChecker, baseline)
    }

    /**
     * NewChangeChecker: `keyList` is what the collection's VersionKeys yields
     * at construction time; a missing generator falls back to the default one.
     */
    constructor (keyList: seq<string>, gen: Option<KeyCheckerGen>)
      ensures Valid()
      ensures gen.None? ==> genKeyChecker == DefaultGen
      ensures gen.Some? ==> genKeyChecker == gen.value
      ensures baseline == keyList
    {
      var g := gen;
      if g.None? {
        g := Some(DefaultGen);
      }
      var checker := GenerateChecker(g.value, keyList);
      genKeyChecker := g.value;
      keyChecker := checker;
      baseline := keyList;
    }

    /**
     * HasChanged as the source has it: the receiver is a copy, so the key
     * checker regenerated on a change is written to the copy and lost. The
     * object itself is left as it was (no modifies clause).
     */
    method HasChanged(keyList: seq<string>) returns (changed: bool)
      ensures changed <==> !Accepts(keyChecker, keyList)
    {
      var cache := keyChecker;
      var equal := Check(cache, keyList);
      if equal {
        return false;
      }
      cache := GenerateChecker(genKeyChecker, keyList);
      return true;
    }

    /**
     * HasChanged as its documentation describes it: on a change, the stored
     * key checker is regenerated from the new key list, so later calls
     * compare against it.
     */
    method HasChangedAdvancing(keyList: seq<string>) returns (changed: bool)
      requires Valid()
      modifies this`keyChecker, this`baseline
      ensures Valid()
      ensures changed <==> !Accepts(old(keyChecker), keyList)
      ensures baseline == if changed then keyList else old(baseline)
    {
      var equal := Check(keyChecker, keyList);
      if equal {
        return false;
      }
      keyChecker := GenerateChecker(genKeyChecker, keyList);
      baseline := keyList;
      return true;
    }
  }

  // ---------------------------------------------------------------------
  // Successive calls: the verdicts over a run of fetched key lists.
  // ---------------------------------------------------------------------

  /** Verdicts of successive HasChanged calls as written: the key checker never moves. */
  function VerdictsAsWritten(c: KeyChecker, fetches: seq<seq<string>>): (verdicts: seq<bool>)
    ensures |verdicts| == |fetches|
    ensures forall i :: 0 <= i < |fetches| ==> verdicts[i] == !Accepts(c, fetches[i])
  {
    if fetches == [] then [] else [!Accepts(c, fetches[0])] + VerdictsAsWritten(c, fetches[1..])
  }

  /** One more HasChanged call appends the fixed checker's verdict on the next fetch. */
  lemma AsWrittenStep(c: KeyChecker, fetches: seq<seq<string>>, done: nat)
    requires done < |fetches|
    ensures VerdictsAsWritten(c, fetches[..done + 1]) == VerdictsAsWritten(c, fetches[..done]) + [!Accepts(c, fetches[done])]
  {
  }

  /** Verdicts of successive HasChangedAdvancing calls: each change becomes the new baseline. */
  function VerdictsAdvancing(gen: KeyCheckerGen, baseline: seq<string>, fetches: seq<seq<string>>): (verdicts: seq<bool>)
    ensures |verdicts| == |fetches|
    ensures fetches != [] ==> verdicts[0] == !Accepts(Generate(gen, baseline), fetches[0])
    decreases |fetches|
  {
    if fetches == [] then []
    else
      var changed := !Accepts(Generate(gen, baseline), fetches[0]);
      [changed] + VerdictsAdvancing(gen, if changed then fetches[0] else baseline, fetches[1..])
  }

  /** The baseline left after successive HasChangedAdvancing calls. */
  function BaselineAfter(gen: KeyCheckerGen, baseline: seq<string>, fetches: seq<seq<string>>): (last: seq<string>)
    decreases |fetches|
  {
    if fetches == [] then baseline
    else
      var changed := !Accepts(Generate(gen, baseline), fetches[0]);
      BaselineAfter(gen, if changed then fetches[0] else baseline, fetches[1..])
  }

  /**
   * After `done` of the fetches, the verdicts so far followed by those still to
   * come from baseline b are the verdicts of the whole run from b0, and b leads
   * to the same final baseline.
   */
  ghost predicate AdvancedTo(gen: KeyCheckerGen, b0: seq<string>, fetches: seq<seq<string>>,
                             done: nat, verdicts: seq<bool>, b: seq<string>)
    requires done <= |fetches|
  {
    verdicts + VerdictsAdvancing(gen, b, fetches[done..]) == VerdictsAdvancing(gen, b0, fetches) &&
    BaselineAfter(gen, b, fetches[done..]) == BaselineAfter(gen, b0, fetches)
  }

  /** One more HasChangedAdvancing call extends the progress by one fetch. */
  lemma AdvancedToStep(gen: KeyCheckerGen, b0: seq<string>, fetches: seq<seq<string>>,
                       done: nat, verdicts: seq<bool>, b: seq<string>)
    requires done < |fetches| && AdvancedTo(gen, b0, fetches, done, verdicts, b)
    ensures var changed := !Accepts(Generate(gen, b), fetches[done]);
            AdvancedTo(gen, b0, fetches, done + 1, verdicts + [changed], if changed then fetches[done] else b)
  {
    var rest := fetches[done..];
    assert rest != [] && rest[0] == fetches[done] && rest[1..] == fetches[done + 1..];
    var changed := !Accepts(Generate(gen, b), fetches[done]);
    var next := if changed then fetches[done] else b;
    var later := VerdictsAdvancing(gen, next, fetches[done + 1..]);
    assert VerdictsAdvancing(gen, b, rest) == [changed] + later;
    assert verdicts + ([changed] + later) == (verdicts + [changed]) + later;
    assert BaselineAfter(gen, b, rest) == BaselineAfter(gen, next, fetches[done + 1..]);
  }

  /** Once every fetch is done, the verdicts and the baseline are the run's. */
  lemma AdvancedToEnd(gen: KeyCheckerGen, b0: seq<string>, fetches: seq<seq<string>>,
                      verdicts: seq<bool>, b: seq<string>)
    requires AdvancedTo(gen, b0, fetches, |fetches|, verdicts, b)
    ensures verdicts == VerdictsAdvancing(gen, b0, fetches)
    ensures b == BaselineAfter(gen, b0, fetches)
  {
    assert fetches[|fetches|..] == [];
  }

  /** The same key list fetched n times in a row. */
  function Repeat(keys: seq<string>, n: nat): (fetches: seq<seq<string>>)
    ensures |fetches| == n && forall i :: 0 <= i < n ==> fetches[i] == keys
  {
    seq(n, _ => keys)
  }

  /**
   * As written, once a key list differs from the construction-time baseline,
   * fetching it again and again is reported as a change every time.
   */
  lemma RepeatedChangeAsWritten(gen: KeyCheckerGen, baseline: seq<string>, keys: seq<string>, n: nat)
    requires !Accepts(Generate(gen, baseline), keys)
    ensures VerdictsAsWritten(Generate(gen, baseline), Repeat(keys, n)) == seq(n, _ => true)
  {
  }

  /**
   * With the baseline advanced, a change is reported once and the repeated
   * fetches after it are not changes.
   */
  lemma {:induction false} RepeatedChangeAdvancing(gen: KeyCheckerGen, baseline: seq<string>, keys: seq<string>, n: nat)
    requires n > 0
    requires !Accepts(Generate(gen, baseline), keys)
    ensures VerdictsAdvancing(gen, baseline, Repeat(keys, n)) == [true] + seq(n - 1, _ => false)
  {
    assert Repeat(keys, n)[1..] == Repeat(keys, n - 1);
    SettledAdvancing(gen, keys, n - 1);
  }

  /** Fetching the current baseline again and again is never a change. */
  lemma {:induction false} SettledAdvancing(gen: KeyCheckerGen, keys: seq<string>, n: nat)
    ensures VerdictsAdvancing(gen, keys, Repeat(keys, n)) == seq(n, _ => false)
  {
    if n > 0 {
      AcceptsOwnBaseline(gen, keys);
      assert Repeat(keys, n)[1..] == Repeat(keys, n - 1);
      SettledAdvancing(gen, keys, n - 1);
    }
  }

  /**
   * A further consequence of the stale baseline: after a change from b0 to
   * b1, going back to b0 is not reported as written (b0 is still the
   * baseline), while with the baseline advanced it is a change again.
   */
  lemma RevertAfterChange(gen: KeyCheckerGen, b0: seq<string>, b1: seq<string>)
    requires !Accepts(Generate(gen, b0), b1) && !Accepts(Generate(gen, b1), b0)
    ensures VerdictsAsWritten(Generate(gen, b0), [b1, b0]) == [true, false]
    ensures VerdictsAdvancing(gen, b0, [b1, b0]) == [true, true]
  {
  }
}
