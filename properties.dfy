/** What the error-chain model promises: how type identity and matching
    behave, the order and pruning of flattening, and what the merged-data
    view holds. */
module WrappedErrorProperties {
  import opened Wrappers
  import opened WrappedErrors

  // ---------------------------------------------------------------------
  // Identity and matching
  // ---------------------------------------------------------------------

  /** Type records are compared by identity: a record with another identity
      is never the node's type, even with the same name and message. */
  lemma IsComparesIdentity(n: WrappedError, t: ErrorType)
    ensures n.Is(n.errorType)
    ensures t.id != n.errorType.id ==> !n.Is(t)
  {
  }

  /** A conflict needs the key on both sides, and does not depend on the order
      of the two maps. */
  lemma ValueConflictSymmetric(a: Data, b: Data, k: string)
    ensures ValueConflict(a, b, k) == ValueConflict(b, a, k)
    ensures k !in a || k !in b ==> !ValueConflict(a, b, k)
  {
  }

  /** An omitted or empty data argument never conflicts, and neither do keys
      that only one side holds: matching then only tests the kind and type. */
  lemma MatchWithoutConflicts(e: Err, t: Option<ErrorType>, d: Data)
    requires e.Wrapped? ==> d.Keys !! e.node.FullData().Keys
    ensures WrappedError.Match(e, t, None) <==> e.Wrapped? && (t.None? || t.value == e.node.errorType)
    ensures WrappedError.Match(e, t, Some(d)) <==> e.Wrapped? && (t.None? || t.value == e.node.errorType)
  {
    if e.Wrapped? {
      var full := e.node.FullData();
      assert MergeKeeps(full, map[]) by {
        assert full + map[] == full;
      }
      assert MergeKeeps(full, d) by {
        forall k | k in full
          ensures (full + d)[k] == full[k]
        {
          assert k !in d;
        }
      }
    }
  }

  /** A conflicting key (present on both sides with different values) makes
      the match fail, whatever the type. */
  lemma ConflictPreventsMatch(e: Err, t: Option<ErrorType>, d: Data, k: string)
    requires e.Wrapped? && ValueConflict(d, e.node.FullData(), k)
    ensures !WrappedError.Match(e, t, Some(d))
  {
    var full := e.node.FullData();
    assert (full + d)[k] == d[k];
  }

  /** A merge overwrites no value exactly when no key conflicts: the
      conflict test of `match` is the right guard for an in-place merge. */
  lemma MergeKeepsIffNoConflict(existing: Data, d: Data)
    ensures MergeKeeps(existing, d) <==> forall k :: !ValueConflict(d, existing, k)
  {
    if !MergeKeeps(existing, d) {
      var k :| k in existing && (existing + d)[k] != existing[k];
      assert ValueConflict(d, existing, k);
    }
  }

  /** On the merge path of `wrap` nothing is lost: the node's data keeps
      every value it held and gains every entry of `d`. */
  lemma MergeLosesNothing(n: WrappedError, t: Option<ErrorType>, d: Data)
    requires WrappedError.Match(Wrapped(n), t, Some(d)) && NoLinkKeys(d)
    ensures (n.data + d).Keys == n.data.Keys + d.Keys
    ensures forall k | k in n.data :: (n.data + d)[k] == n.data[k]
    ensures forall k | k in d :: (n.data + d)[k] == d[k]
  {
    var full := n.FullData();
    forall k | k in n.data
      ensures (n.data + d)[k] == n.data[k]
    {
      if k in d {
        assert k in full && (full + d)[k] == full[k];
        assert full[k] == n.data[k];
      }
    }
  }

  /** The node a successful construction returns carries exactly the given
      type (or UNDEFINED_ERROR when none was given), so `is` holds of it. */
  lemma ConstructedIs(r: Result<WrappedError, WrappedError>, t: Option<ErrorType>, d: Data, c: Cause)
    requires Constructed(r, t, d, c)
    ensures r.Success? <==> ValidType(t.GetOr(UndefinedError))
    ensures r.Success? ==> r.value.Is(t.GetOr(UndefinedError)) && r.value.data == d
    ensures r.Failure? ==> r.error.Is(InvalidTypeDefinition) && r.error.data[GivenTypeKey] == TypeRecord(t.GetOr(UndefinedError))
  {
  }

  /** `wrap(e)` with neither type nor data on a node of this model takes the
      merge path, and the merge leaves the node's data as it was. */
  lemma WrapWithNothingMatches(n: WrappedError)
    ensures WrappedError.Match(Wrapped(n), None, None)
    ensures n.data + DataOrEmpty(None) == n.data
  {
    var full := n.FullData();
    assert full + map[] == full;
    assert n.data + map[] == n.data;
  }

  // ---------------------------------------------------------------------
  // Flattening: order
  // ---------------------------------------------------------------------

  /** Flattening the causes `lo` to `hi` is flattening the causes `lo` to
      `m`, then the causes `m` to `hi`. */
  lemma {:induction false} FlattenCausesSplit<V>(e: Err, lo: nat, m: nat, hi: nat, f: Err -> Option<V>)
    requires Ranked(e) && lo <= m <= hi <= |Causes(e)|
    ensures FlattenCauses(e, lo, hi, f) == FlattenCauses(e, lo, m, f) + FlattenCauses(e, m, hi, f)
    decreases hi
  {
    if hi > m {
      FlattenCausesSplit(e, lo, m, hi - 1, f);
      var a, b, c := FlattenCauses(e, lo, m, f), FlattenCauses(e, m, hi - 1, f), Flatten(Causes(e)[hi - 1], f);
      assert FlattenCauses(e, lo, hi, f) == (a + b) + c;
      assert FlattenCauses(e, m, hi, f) == b + c;
      assert (a + b) + c == a + (b + c);
    } else {
      assert FlattenCauses(e, m, hi, f) == [];
    }
  }

  /** The causes of a multi-cause node appear in their given order, each as a
      block; a pruned cause is an empty block, so its siblings before and
      after it still appear, in order, and the node itself comes last. */
  lemma FlattenSkipsPrunedCause<V>(e: Err, f: Err -> Option<V>, k: nat)
    requires Ranked(e) && e.Wrapped? && e.node.cause.Many?
    requires k < |e.node.cause.originals|
    requires f(e).Some? && f(e.node.cause.originals[k]).None?
    ensures var n := |e.node.cause.originals|;
      Flatten(e, f) == FlattenCauses(e, 0, k, f) + FlattenCauses(e, k + 1, n, f) + [f(e).value]
  {
    var n := |e.node.cause.originals|;
    assert Causes(e) == e.node.cause.originals;
    FlattenCausesSplit(e, 0, k + 1, n, f);
  }

  /** Every shape of node flattens the same way once its value is kept: the
      flattening of all its causes (none, one or several), then its value. */
  lemma FlattenKeptRoot<V>(e: Err, f: Err -> Option<V>)
    requires Ranked(e) && f(e).Some?
    ensures Flatten(e, f) == FlattenCauses(e, 0, |Causes(e)|, f) + [f(e).value]
  {
    if e.Wrapped? && e.node.cause.One? {
      assert |Causes(e)| == 1 && FlattenCauses(e, 0, 0, f) == [];
      assert FlattenCauses(e, 0, 1, f) == [] + Flatten(Causes(e)[0], f);
    }
  }

  /** The tagged callback: keeps `f`'s decision but outputs the node itself. */
  function Tagged<V>(f: Err -> Option<V>): Err -> Option<Err> {
    (x: Err) => if f(x).Some? then Some(x) else None
  }

  /** The nodes whose mapped values the flattening emits, in emission order. */
  function Emitted<V>(e: Err, f: Err -> Option<V>): seq<Err>
    requires Ranked(e)
  {
    Flatten(e, Tagged(f))
  }

  /** Flattening with two callbacks that prune the same nodes gives two
      sequences of equal length whose elements correspond position by
      position. */
  lemma {:induction false} FlattenLockstep<V, U>(e: Err, f: Err -> Option<V>, g: Err -> Option<U>, p: (V, U) -> bool)
    requires Ranked(e)
    requires forall x :: f(x).Some? <==> g(x).Some?
    requires forall x :: f(x).Some? ==> p(f(x).value, g(x).value)
    ensures |Flatten(e, f)| == |Flatten(e, g)|
    ensures forall i | 0 <= i < |Flatten(e, f)| :: p(Flatten(e, f)[i], Flatten(e, g)[i])
    decreases Height(e), 1, 0
  {
    if f(e).Some? && e.Wrapped? {
      match e.node.cause
      case NoCause =>
      case One(c) =>
        assert Causes(e)[0] == c;
        FlattenLockstep(c, f, g, p);
      case Many(cs) => FlattenCausesLockstep(e, 0, |cs|, f, g, p);
    }
  }

  lemma {:induction false} FlattenCausesLockstep<V, U>(e: Err, lo: nat, hi: nat, f: Err -> Option<V>, g: Err -> Option<U>, p: (V, U) -> bool)
    requires Ranked(e) && lo <= hi <= |Causes(e)|
    requires forall x :: f(x).Some? <==> g(x).Some?
    requires forall x :: f(x).Some? ==> p(f(x).value, g(x).value)
    ensures |FlattenCauses(e, lo, hi, f)| == |FlattenCauses(e, lo, hi, g)|
    ensures forall i | 0 <= i < |FlattenCauses(e, lo, hi, f)| ::
      p(FlattenCauses(e, lo, hi, f)[i], FlattenCauses(e, lo, hi, g)[i])
    decreases Height(e), 0, hi - lo
  {
    if hi > lo {
      FlattenCausesLockstep(e, lo, hi - 1, f, g, p);
      FlattenLockstep(Causes(e)[hi - 1], f, g, p);
    }
  }

  /** The flattening is the sequence of mapped values of the emitted nodes:
      a map substitutes values without changing the structural order. */
  lemma FlattenFollowsEmitted<V>(e: Err, f: Err -> Option<V>)
    requires Ranked(e)
    ensures |Flatten(e, f)| == |Emitted(e, f)|
    ensures forall i | 0 <= i < |Flatten(e, f)| :: f(Emitted(e, f)[i]) == Some(Flatten(e, f)[i])
  {
    FlattenLockstep(e, f, Tagged(f), (v: V, x: Err) => f(x) == Some(v));
  }

  // ---------------------------------------------------------------------
  // Flattening: pruning
  // ---------------------------------------------------------------------

  /** `y` is reached from `e` along a path of causes none of which `f`
      prunes (both ends included). */
  ghost predicate Reaches<V>(e: Err, y: Err, f: Err -> Option<V>)
    requires Ranked(e)
    decreases Height(e)
  {
    && f(e).Some?
    && (e == y || exists i | 0 <= i < |Causes(e)| :: Reaches(Causes(e)[i], y, f))
  }

  /** A node is emitted exactly when it is reached through unpruned nodes
      only: pruning a node hides its whole subtree (as far as the subtree is
      not also reachable another way) and nothing else. */
  lemma {:induction false} EmittedIffReaches<V>(e: Err, y: Err, f: Err -> Option<V>)
    requires Ranked(e)
    ensures y in Emitted(e, f) <==> Reaches(e, y, f)
    decreases Height(e), 1, 0
  {
    var t := Tagged(f);
    if f(e).None? {
      assert t(e).None?;
    } else {
      assert t(e) == Some(e);
      if e.Native? {
        assert Emitted(e, f) == [e];
      } else {
        match e.node.cause
        case NoCause =>
          assert Emitted(e, f) == [e];
        case One(c) =>
          assert Causes(e) == [c] && Causes(e)[0] == c;
          assert Emitted(e, f) == Flatten(c, t) + [e];
          EmittedIffReaches(c, y, f);
        case Many(cs) =>
          assert Emitted(e, f) == FlattenCauses(e, 0, |cs|, t) + [e];
          EmittedCausesIffReaches(e, 0, |cs|, y, f);
      }
    }
  }

  lemma {:induction false} EmittedCausesIffReaches<V>(e: Err, lo: nat, hi: nat, y: Err, f: Err -> Option<V>)
    requires Ranked(e) && lo <= hi <= |Causes(e)|
    ensures y in FlattenCauses(e, lo, hi, Tagged(f)) <==> exists i | lo <= i < hi :: Reaches(Causes(e)[i], y, f)
    decreases Height(e), 0, hi - lo
  {
    if hi > lo {
      EmittedCausesIffReaches(e, lo, hi - 1, y, f);
      EmittedIffReaches(Causes(e)[hi - 1], y, f);
    }
  }

  /** A pruned node never shows up, and neither does its value. */
  lemma PrunedNodeNotEmitted<V>(e: Err, x: Err, f: Err -> Option<V>)
    requires Ranked(e) && f(x).None?
    ensures x !in Emitted(e, f)
  {
    EmittedIffReaches(e, x, f);
    if Reaches(e, x, f) {
      ReachedIsUnpruned(e, x, f);
    }
  }

  lemma {:induction false} ReachedIsUnpruned<V>(e: Err, y: Err, f: Err -> Option<V>)
    requires Ranked(e) && Reaches(e, y, f)
    ensures f(y).Some?
    decreases Height(e)
  {
    if e != y {
      var i :| 0 <= i < |Causes(e)| && Reaches(Causes(e)[i], y, f);
      ReachedIsUnpruned(Causes(e)[i], y, f);
    }
  }

  /** Without a map the flattening lists the nodes themselves, and lists
      exactly the nodes of the causal tree. */
  lemma NoMapListsEveryNode(e: Err, y: Err)
    requires Ranked(e)
    ensures Flatten(e, NoMap) == Emitted(e, NoMap)
    ensures y in Flatten(e, NoMap) <==> Reaches(e, y, NoMap)
  {
    FlattenFollowsEmitted(e, NoMap);
    EmittedIffReaches(e, y, NoMap);
  }

  /** The errors of the tree rooted at `e`, as a set: `e` and everything
      below its causes. */
  ghost function Subtree(e: Err): set<Err>
    requires Ranked(e)
    decreases Height(e), 1, 0
  {
    {e} + SubtreesOf(e, 0, |Causes(e)|)
  }

  /** The union of the subtrees of the causes `lo` (included) to `hi`
      (excluded) of `e`. */
  ghost function SubtreesOf(e: Err, lo: nat, hi: nat): set<Err>
    requires Ranked(e) && lo <= hi <= |Causes(e)|
    decreases Height(e), 0, hi - lo
  {
    if hi == lo then {} else SubtreesOf(e, lo, hi - 1) + Subtree(Causes(e)[hi - 1])
  }

  /** No error is shared: at every node of the tree, the subtree of each
      cause shares nothing with the subtrees of the causes before it (so the
      subtrees of any two causes are disjoint). */
  ghost predicate IsTree(e: Err)
    requires Ranked(e)
    decreases Height(e)
  {
    forall k | 0 <= k < |Causes(e)| :: IsTree(Causes(e)[k]) && SubtreesOf(e, 0, k) !! Subtree(Causes(e)[k])
  }

  /** A sequence without repeated elements. */
  ghost predicate Distinct(s: seq<Err>) {
    forall i, j | 0 <= i < j < |s| :: s[i] != s[j]
  }

  /** The set of the elements of a sequence. */
  ghost function Elems(s: seq<Err>): set<Err>
    decreases |s|
  {
    if s == [] then {} else Elems(s[..|s| - 1]) + {s[|s| - 1]}
  }

  lemma {:induction false} ElemsHas(s: seq<Err>, x: Err)
    ensures x in Elems(s) <==> x in s
    decreases |s|
  {
    if s != [] {
      var prefix := s[..|s| - 1];
      ElemsHas(prefix, x);
      assert s == prefix + [s[|s| - 1]];
    }
  }

  lemma {:induction false} ElemsConcat(a: seq<Err>, b: seq<Err>)
    ensures Elems(a + b) == Elems(a) + Elems(b)
    decreases |b|
  {
    if b == [] {
      assert a + b == a;
    } else {
      ElemsConcat(a, b[..|b| - 1]);
      assert (a + b)[..|a + b| - 1] == a + b[..|b| - 1];
    }
  }

  /** A sequence has at least as many positions as distinct elements, and
      exactly as many only when no element repeats. */
  lemma {:induction false} CountedIsDistinct(s: seq<Err>)
    ensures |Elems(s)| <= |s|
    ensures |Elems(s)| == |s| ==> Distinct(s)
    decreases |s|
  {
    if s != [] {
      var prefix, last := s[..|s| - 1], s[|s| - 1];
      CountedIsDistinct(prefix);
      if |Elems(s)| == |s| {
        ElemsHas(prefix, last);
        assert last !in prefix;
        forall i, j | 0 <= i < j < |s| ensures s[i] != s[j] {
          if j < |s| - 1 {
            assert s[i] == prefix[i] && s[j] == prefix[j];
          } else {
            assert s[i] == prefix[i] && prefix[i] in prefix;
          }
        }
      }
    }
  }

  /** Two lists that each hold exactly their own set, once per element, with
      disjoint sets, concatenate to a list that holds the union once per
      element. */
  lemma ConcatCounted(front: seq<Err>, back: seq<Err>, frontSet: set<Err>, backSet: set<Err>)
    requires Elems(front) == frontSet && |front| == |frontSet|
    requires Elems(back) == backSet && |back| == |backSet|
    requires frontSet !! backSet
    ensures Elems(front + back) == frontSet + backSet
    ensures |front + back| == |frontSet + backSet|
  {
    ElemsConcat(front, back);
    assert frontSet * backSet == {};
  }

  /** Every error of a tree sits no higher than its root. */
  lemma {:induction false} SubtreeHeight(e: Err)
    requires Ranked(e)
    ensures forall x | x in Subtree(e) :: Height(x) <= Height(e)
    decreases Height(e), 1, 0
  {
    SubtreesOfHeight(e, 0, |Causes(e)|);
  }

  lemma {:induction false} SubtreesOfHeight(e: Err, lo: nat, hi: nat)
    requires Ranked(e) && lo <= hi <= |Causes(e)|
    ensures forall x | x in SubtreesOf(e, lo, hi) :: Height(x) < Height(e)
    decreases Height(e), 0, hi - lo
  {
    if hi > lo {
      SubtreesOfHeight(e, lo, hi - 1);
      SubtreeHeight(Causes(e)[hi - 1]);
    }
  }

  /** Without a map, `getErrors` on a tree lists exactly the errors of the
      tree, as many times as there are errors. */
  lemma {:induction false} TreeListsEachNodeOnce(e: Err)
    requires Ranked(e) && IsTree(e)
    ensures Elems(Flatten(e, NoMap)) == Subtree(e)
    ensures |Flatten(e, NoMap)| == |Subtree(e)|
    decreases Height(e), 1, 0
  {
    var n := |Causes(e)|;
    var below, belowSet := FlattenCauses(e, 0, n, NoMap), SubtreesOf(e, 0, n);
    TreeCausesListEachNodeOnce(e, n);
    SubtreesOfHeight(e, 0, n);
    assert e !in belowSet;
    FlattenKeptRoot(e, NoMap);
    assert Elems([e]) == {e} by {
      assert [e][..0] == [];
    }
    ConcatCounted(below, [e], belowSet, {e});
  }

  lemma {:induction false} TreeCausesListEachNodeOnce(e: Err, hi: nat)
    requires Ranked(e) && IsTree(e) && hi <= |Causes(e)|
    ensures Elems(FlattenCauses(e, 0, hi, NoMap)) == SubtreesOf(e, 0, hi)
    ensures |FlattenCauses(e, 0, hi, NoMap)| == |SubtreesOf(e, 0, hi)|
    decreases Height(e), 0, hi
  {
    if hi > 0 {
      var c := Causes(e)[hi - 1];
      var front, back := FlattenCauses(e, 0, hi - 1, NoMap), Flatten(c, NoMap);
      var frontSet, backSet := SubtreesOf(e, 0, hi - 1), Subtree(c);
      assert IsTree(c) && frontSet !! backSet;
      TreeCausesListEachNodeOnce(e, hi - 1);
      TreeListsEachNodeOnce(c);
      ConcatCounted(front, back, frontSet, backSet);
    }
  }

  /** Hence `getErrors()` on a tree repeats no error, and its length is the
      number of errors of the tree. A shared error (one reachable along two
      paths) is listed once per path. */
  lemma NoMapListsEachNodeOnce(e: Err)
    requires Ranked(e) && IsTree(e)
    ensures Distinct(Flatten(e, NoMap))
    ensures |Flatten(e, NoMap)| == |Subtree(e)|
  {
    TreeListsEachNodeOnce(e);
    CountedIsDistinct(Flatten(e, NoMap));
  }

  // ---------------------------------------------------------------------
  // Flattening: the scenarios of the library's tests (test/wrappederror.test.js)
  // ---------------------------------------------------------------------

  /** The callback that drops one node and keeps every other one. */
  function Without(n: WrappedError): Err -> Option<Err> {
    (x: Err) => if x == Wrapped(n) then None else Some(x)
  }

  /** A chain e1 <- e2 <- e3 flattens to [e1, e2, e3]. */
  lemma ChainOrder(e1: WrappedError, e2: WrappedError, e3: WrappedError)
    requires e1.cause == NoCause && e2.cause == One(Wrapped(e1)) && e3.cause == One(Wrapped(e2))
    requires Ranked(Wrapped(e3))
    ensures Flatten(Wrapped(e3), NoMap) == [Wrapped(e1), Wrapped(e2), Wrapped(e3)]
  {
    assert Causes(Wrapped(e3))[0] == Wrapped(e2) && Causes(Wrapped(e2))[0] == Wrapped(e1);
    assert Flatten(Wrapped(e1), NoMap) == [Wrapped(e1)];
    assert Flatten(Wrapped(e2), NoMap) == [Wrapped(e1), Wrapped(e2)];
  }

  /** Two errors wrapped together flatten to [e1, e2, e3]. */
  lemma FanInOrder(e1: Err, e2: Err, e3: WrappedError)
    requires e3.cause == Many([e1, e2])
    requires !e1.Wrapped? || e1.node.cause == NoCause
    requires !e2.Wrapped? || e2.node.cause == NoCause
    requires Ranked(Wrapped(e3))
    ensures Flatten(Wrapped(e3), NoMap) == [e1, e2, Wrapped(e3)]
  {
    var w3 := Wrapped(e3);
    assert Causes(w3) == [e1, e2];
    assert FlattenCauses(w3, 0, 1, NoMap) == [e1];
    assert FlattenCauses(w3, 0, 2, NoMap) == [e1, e2];
  }

  /** A shared error is listed once per path to it: `wrapMulti([e1, e1])`
      flattens to [e1, e1, e3], and is not a tree. */
  lemma SharedCauseListedTwice(e1: WrappedError, e3: WrappedError)
    requires e1.cause == NoCause && e3.cause == Many([Wrapped(e1), Wrapped(e1)])
    requires Ranked(Wrapped(e3))
    ensures Flatten(Wrapped(e3), NoMap) == [Wrapped(e1), Wrapped(e1), Wrapped(e3)]
    ensures !IsTree(Wrapped(e3))
  {
    var w1, w3 := Wrapped(e1), Wrapped(e3);
    assert Causes(w3) == [w1, w1] && Causes(w3)[0] == w1 && Causes(w3)[1] == w1;
    assert Flatten(w1, NoMap) == [w1];
    assert FlattenCauses(w3, 0, 1, NoMap) == [] + [w1];
    assert FlattenCauses(w3, 0, 2, NoMap) == [w1] + [w1];
    FlattenKeptRoot(w3, NoMap);
    assert w1 in Subtree(w1);
    assert SubtreesOf(w3, 0, 1) == {} + Subtree(w1);
  }

  /** The two-level tree e5 = multi(e3 = multi(e1, e2), e4): dropping the
      leaf e2 gives [e1, e3, e4, e5]; dropping e3 drops e1 and e2 with it
      and gives [e4, e5]. */
  lemma PruningScenarios(e1: WrappedError, e2: WrappedError, e3: WrappedError, e4: WrappedError, e5: WrappedError)
    requires e1.cause == NoCause && e2.cause == NoCause && e4.cause == NoCause
    requires e3.cause == Many([Wrapped(e1), Wrapped(e2)])
    requires e5.cause == Many([Wrapped(e3), Wrapped(e4)])
    requires Ranked(Wrapped(e5))
    requires e2 != e1 && e2 != e3 && e2 != e4 && e2 != e5
    requires e3 != e4 && e3 != e5
    ensures Flatten(Wrapped(e5), Without(e2)) == [Wrapped(e1), Wrapped(e3), Wrapped(e4), Wrapped(e5)]
    ensures Flatten(Wrapped(e5), Without(e3)) == [Wrapped(e4), Wrapped(e5)]
  {
    var w1, w2, w3, w4, w5 := Wrapped(e1), Wrapped(e2), Wrapped(e3), Wrapped(e4), Wrapped(e5);
    assert Causes(w5) == [w3, w4] && Causes(w3) == [w1, w2];
    assert Ranked(w3) && Ranked(w4);

    var f := Without(e2);
    assert FlattenCauses(w3, 0, 1, f) == [w1];
    assert FlattenCauses(w3, 0, 2, f) == [w1];
    assert Flatten(w3, f) == [w1, w3];
    assert FlattenCauses(w5, 0, 1, f) == [w1, w3];
    assert FlattenCauses(w5, 0, 2, f) == [w1, w3, w4];

    var g := Without(e3);
    assert FlattenCauses(w5, 0, 1, g) == [];
    assert FlattenCauses(w5, 0, 2, g) == [w4];
  }

  // ---------------------------------------------------------------------
  // The merged-data view
  // ---------------------------------------------------------------------

  /** The data maps `mergedData` assigns, in order. */
  function DataList(n: WrappedError): seq<Data>
    requires Ranked(Wrapped(n))
    reads Nodes(Wrapped(n))
  {
    Flatten(Wrapped(n), DataOf(Snapshot(Wrapped(n))))
  }

  /** The assignment of a list of maps holds a key exactly when one of the
      maps does, with the value of the last map that holds it. */
  lemma {:induction false} UnionAllLookup(ds: seq<Data>, k: string)
    ensures k in UnionAll(ds) <==> exists i | 0 <= i < |ds| :: k in ds[i]
    ensures forall j | 0 <= j < |ds| && k in ds[j] && (forall i | j < i < |ds| :: k !in ds[i]) ::
      k in UnionAll(ds) && UnionAll(ds)[k] == ds[j][k]
  {
    if ds != [] {
      var prefix := ds[..|ds| - 1];
      UnionAllLookup(prefix, k);
      forall j | 0 <= j < |ds| && k in ds[j] && (forall i | j < i < |ds| :: k !in ds[i])
        ensures k in UnionAll(ds) && UnionAll(ds)[k] == ds[j][k]
      {
        if j < |ds| - 1 {
          assert k !in ds[|ds| - 1];
          assert prefix[j] == ds[j];
          assert forall i | j < i < |prefix| :: prefix[i] == ds[i];
        }
      }
      if exists i | 0 <= i < |ds| :: k in ds[i] {
        var i :| 0 <= i < |ds| && k in ds[i];
        if i < |ds| - 1 {
          assert prefix[i] == ds[i];
        }
      }
      if exists i | 0 <= i < |prefix| :: k in prefix[i] {
        var i :| 0 <= i < |prefix| && k in prefix[i];
        assert ds[i] == prefix[i];
      }
    }
  }

  /** The data maps `mergedData` assigns are those of the model's nodes of the
      tree, in flattening order: native errors contribute nothing. */
  lemma DataListIsNodesData(n: WrappedError)
    requires Ranked(Wrapped(n))
    ensures |DataList(n)| == |Flatten(Wrapped(n), AsNode)|
    ensures forall i | 0 <= i < |DataList(n)| ::
      DataList(n)[i] == Flatten(Wrapped(n), AsNode)[i].FullData()
  {
    var snapshot := Snapshot(Wrapped(n));
    var ns := Flatten(Wrapped(n), AsNode);
    FlattenLockstep(Wrapped(n), AsNode, DataOf(snapshot),
      (m: WrappedError, d: Data) => d == (if m in snapshot then snapshot[m] else map[]));
    forall i | 0 <= i < |ns| ensures ns[i] in snapshot {
      assert ns[i] in Nodes(Wrapped(n));
    }
  }

  /** A node without causes: `mergedData` is its own data. */
  lemma MergedDataOfLeaf(n: WrappedError)
    requires Ranked(Wrapped(n)) && n.cause == NoCause
    ensures n.Merged() == n.data
  {
    var snapshot := Snapshot(Wrapped(n));
    assert n in Nodes(Wrapped(n));
    assert DataList(n) == [n.data + map[]];
    assert UnionAll([n.data + map[]]) == map[] + (n.data + map[]);
    assert map[] + (n.data + map[]) == n.data;
  }

  /** A node with causes: `mergedData` is the union of the data of the tree
      with both link keys removed, plus the root's own link entry. */
  lemma MergedDataShape(n: WrappedError)
    requires Ranked(Wrapped(n)) && !n.cause.NoCause?
    ensures n.Merged() == (UnionAll(DataList(n)) - {OriginalErrorKey, OriginalErrorsKey}) + LinkEntry(n.cause)
  {
    var ds := DataList(n);
    assert n in Nodes(Wrapped(n));
    assert ds[|ds| - 1] == n.FullData();
    var u := UnionAll(ds);
    assert u == UnionAll(ds[..|ds| - 1]) + n.FullData();
    var lhs := n.Merged();
    var rhs := (u - {OriginalErrorKey, OriginalErrorsKey}) + LinkEntry(n.cause);
    assert forall k :: k in lhs <==> k in rhs;
    assert forall k | k in lhs :: lhs[k] == rhs[k];
  }

  /** Root-level data wins: every key of the root's own data keeps the root's
      value in `mergedData`. */
  lemma MergedDataRootWins(n: WrappedError, k: string)
    requires Ranked(Wrapped(n)) && NoLinkKeys(n.data)
    requires k in n.data
    ensures k in n.Merged() && n.Merged()[k] == n.data[k]
  {
    if n.cause.NoCause? {
      MergedDataOfLeaf(n);
    } else {
      MergedDataShape(n);
      var ds := DataList(n);
      assert n in Nodes(Wrapped(n));
      assert ds[|ds| - 1] == n.FullData();
      UnionAllLookup(ds, k);
    }
  }

  /** Away from the link keys, `mergedData` is the plain assignment of the
      flattened data maps. */
  lemma MergedDataOutsideLinks(n: WrappedError, k: string)
    requires Ranked(Wrapped(n))
    requires k != OriginalErrorKey && k != OriginalErrorsKey
    ensures k in n.Merged() <==> k in UnionAll(DataList(n))
    ensures k in n.Merged() ==> n.Merged()[k] == UnionAll(DataList(n))[k]
  {
    if n.cause.NoCause? {
      assert n.Merged() == UnionAll(DataList(n));
    } else {
      MergedDataShape(n);
      assert k !in LinkEntry(n.cause);
    }
  }

  /** Precedence in `mergedData`, stated over the nodes in flattening order:
      a key other than the link keys is present exactly when some node of the
      tree holds it. Its value is that of the LAST node in flattening order
      that holds it. This node need not be the nearest to the root: under
      `wrapMulti([a, b])` a key in `b`'s subtree overrides the same key in
      `a`'s subtree. */
  lemma MergedDataLastHolderWins(n: WrappedError, k: string)
    requires Ranked(Wrapped(n))
    requires k != OriginalErrorKey && k != OriginalErrorsKey
    ensures var ns := Flatten(Wrapped(n), AsNode);
      k in n.Merged() <==> exists i | 0 <= i < |ns| :: k in ns[i].FullData()
    ensures var ns := Flatten(Wrapped(n), AsNode);
      forall j | 0 <= j < |ns| && k in ns[j].FullData() && (forall i | j < i < |ns| :: k !in ns[i].FullData()) ::
        k in n.Merged() && n.Merged()[k] == ns[j].FullData()[k]
  {
    var ns, ds := Flatten(Wrapped(n), AsNode), DataList(n);
    DataListIsNodesData(n);
    MergedDataOutsideLinks(n, k);
    assert k in n.Merged() <==> exists i | 0 <= i < |ns| :: k in ns[i].FullData() by {
      UnionAllLookup(ds, k);
      if k in UnionAll(ds) {
        var i :| 0 <= i < |ds| && k in ds[i];
        assert k in ns[i].FullData();
      }
    }
    forall j | 0 <= j < |ns| && k in ns[j].FullData() && (forall i | j < i < |ns| :: k !in ns[i].FullData())
      ensures k in n.Merged() && n.Merged()[k] == ns[j].FullData()[k]
    {
      assert k in ds[j];
      assert forall i | j < i < |ds| :: k !in ds[i];
      UnionAllLookup(ds, k);
    }
  }
}
