/** Intersecting any number of sorted lists of node ids, with multiplicities: the inner loop of
    the multiway intersect operator. */
module Intersection {

  datatype NodeID = NodeID(tableID: nat, offset: nat)

  predicate Less(a: NodeID, b: NodeID) {
    a.tableID < b.tableID || (a.tableID == b.tableID && a.offset < b.offset)
  }

  predicate Sorted(s: seq<NodeID>) {
    forall i, j :: 0 <= i < j < |s| ==> !Less(s[j], s[i])
  }

  type Streams = seq<seq<NodeID>>

  predicate AllSorted(ss: Streams) {
    forall i :: 0 <= i < |ss| ==> Sorted(ss[i])
  }

  predicate NoneEmpty(ss: Streams) {
    forall i :: 0 <= i < |ss| ==> ss[i] != []
  }

  // ----- what the loop computes, stream by stream -----

  /** Going forward to the first id that is not below the target. */
  function DropBelow(s: seq<NodeID>, target: NodeID): (r: seq<NodeID>)
    ensures |r| <= |s|
    ensures s != [] && Less(s[0], target) ==> |r| < |s|
    ensures r != [] ==> !Less(r[0], target)
  {
    if s != [] && Less(s[0], target) then DropBelow(s[1..], target) else s
  }

  /** Going past the run of ids equal to `x`. */
  function DropEqual(s: seq<NodeID>, x: NodeID): (r: seq<NodeID>)
    ensures |r| <= |s|
    ensures s != [] && s[0] == x ==> |r| < |s|
  {
    if s != [] && s[0] == x then DropEqual(s[1..], x) else s
  }

  /** The length of the run of ids equal to `x` at the front. */
  function LeadCount(s: seq<NodeID>, x: NodeID): nat {
    if s != [] && s[0] == x then 1 + LeadCount(s[1..], x) else 0
  }

  datatype Verdict = AllAtTarget | Missed(target: NodeID) | Exhausted

  function TotalLength(ss: Streams): nat {
    if ss == [] then 0 else |ss[0]| + TotalLength(ss[1..])
  }

  lemma {:induction false} TotalLengthUpdate(ss: Streams, i: nat, s: seq<NodeID>)
    requires i < |ss|
    ensures TotalLength(ss[i := s]) == TotalLength(ss) - |ss[i]| + |s|
  {
    if i > 0 {
      assert ss[i := s][1..] == ss[1..][i - 1 := s];
      TotalLengthUpdate(ss[1..], i - 1, s);
    } else {
      assert ss[i := s][1..] == ss[1..];
    }
  }

  /** Brings the streams from `i` on to the target. Stops at the first one that has passed it,
      whose id is the next target, or that has run out. */
  function Advance(ss: Streams, target: NodeID, i: nat): (r: (Streams, Verdict))
    requires i <= |ss| && NoneEmpty(ss)
    decreases |ss| - i
  {
    if i == |ss| then (ss, AllAtTarget)
    else if Less(target, ss[i][0]) then (ss, Missed(ss[i][0]))
    else
      var s := DropBelow(ss[i], target);
      if s == [] then (ss[i := s], Exhausted)
      else if Less(target, s[0]) then (ss[i := s], Missed(s[0]))
      else Advance(ss[i := s], target, i + 1)
  }

  /** How many streams are ahead of the target. */
  function Ahead(ss: Streams, target: NodeID): nat
    requires NoneEmpty(ss)
  {
    if ss == [] then 0 else (if Less(target, ss[0][0]) then 1 else 0) + Ahead(ss[1..], target)
  }

  function Product(ss: Streams, x: NodeID): nat {
    if ss == [] then 1 else LeadCount(ss[0], x) * Product(ss[1..], x)
  }

  /** Every stream past its run of `x`. */
  function PastAll(ss: Streams, x: NodeID): (r: Streams)
    ensures |r| == |ss|
    ensures forall i :: 0 <= i < |ss| ==> r[i] == DropEqual(ss[i], x)
  {
    if ss == [] then [] else [DropEqual(ss[0], x)] + PastAll(ss[1..], x)
  }

  /** The target, raised to the greatest front id. */
  function Highest(ss: Streams, target: NodeID): NodeID {
    if ss == [] then target
    else Highest(ss[1..], if ss[0] != [] && Less(target, ss[0][0]) then ss[0][0] else target)
  }

  function Repeat(x: NodeID, n: nat): seq<NodeID> {
    seq(n, _ => x)
  }

  lemma {:induction false} AdvanceShrinks(ss: Streams, target: NodeID, i: nat)
    requires i <= |ss| && NoneEmpty(ss)
    ensures var (ss', v) := Advance(ss, target, i);
            && |ss'| == |ss| && TotalLength(ss') <= TotalLength(ss)
            && (!v.Exhausted? ==> NoneEmpty(ss'))
            && (v.Missed? ==>
                  && Less(target, v.target)
                  && exists k :: i <= k < |ss'| && ss'[k] != [] && ss'[k][0] == v.target)
            && (v.AllAtTarget? ==> forall k :: i <= k < |ss'| ==> ss'[k] != [] && ss'[k][0] == target)
            && (forall k :: 0 <= k < i ==> ss'[k] == ss[k])
            && (TotalLength(ss') == TotalLength(ss) ==> ss' == ss)
    decreases |ss| - i
  {
    if i < |ss| && !Less(target, ss[i][0]) {
      var s := DropBelow(ss[i], target);
      TotalLengthUpdate(ss, i, s);
      if !Less(ss[i][0], target) { assert ss[i := s] == ss; }
      if s != [] && !Less(target, s[0]) {
        assert s[0] == target;
        AdvanceShrinks(ss[i := s], target, i + 1);
      } else if s != [] {
        assert ss[i := s][i][0] == s[0];
      }
    }
  }

  lemma {:induction false} AheadFalls(ss: Streams, target: NodeID, target': NodeID)
    requires NoneEmpty(ss) && Less(target, target')
    ensures Ahead(ss, target') <= Ahead(ss, target)
    ensures (exists k :: 0 <= k < |ss| && ss[k][0] == target') ==> Ahead(ss, target') < Ahead(ss, target)
  {
    if ss != [] {
      AheadFalls(ss[1..], target, target');
      if exists k :: 0 <= k < |ss| && ss[k][0] == target' {
        var k :| 0 <= k < |ss| && ss[k][0] == target';
        if k > 0 { assert ss[1..][k - 1][0] == target'; }
      }
    }
  }

  lemma {:induction false} PastAllShrinks(ss: Streams, x: NodeID)
    requires NoneEmpty(ss) && (forall k :: 0 <= k < |ss| ==> ss[k][0] == x)
    ensures TotalLength(PastAll(ss, x)) <= TotalLength(ss)
    ensures ss != [] ==> TotalLength(PastAll(ss, x)) < TotalLength(ss)
  {
    if ss != [] {
      assert PastAll(ss, x)[1..] == PastAll(ss[1..], x);
      PastAllShrinks(ss[1..], x);
    }
  }

  /** The whole loop: the ids it emits from here on. */
  function Run(ss: Streams, target: NodeID): seq<NodeID>
    requires ss != [] && NoneEmpty(ss)
    decreases TotalLength(ss), Ahead(ss, target)
  {
    AdvanceShrinks(ss, target, 0);
    var (ss', v) := Advance(ss, target, 0);
    match v
    case Exhausted => []
    case Missed(target') =>
      AheadFalls(ss, target, target');
      Run(ss', target')
    case AllAtTarget =>
      PastAllShrinks(ss', target);
      var next := PastAll(ss', target);
      Repeat(target, Product(ss', target)) +
      if NoneEmpty(next) then Run(next, Highest(next, target)) else []
  }

  /** The operator starts at the first id of the first list. */
  function Intersect(ss: Streams): seq<NodeID>
    requires ss != [] && NoneEmpty(ss)
  {
    Run(ss, ss[0][0])
  }

  // ----- what it computes, as a whole -----

  /** In how many ways `x` can be picked once from every stream. */
  function Ways(ss: Streams, x: NodeID): nat {
    if ss == [] then 1 else multiset(ss[0])[x] * Ways(ss[1..], x)
  }

  lemma {:induction false} WaysZero(ss: Streams, x: NodeID, i: nat)
    requires i < |ss| && x !in ss[i]
    ensures Ways(ss, x) == 0
  {
    if i > 0 {
      assert ss[1..][i - 1] == ss[i];
      WaysZero(ss[1..], x, i - 1);
    }
  }

  lemma {:induction false} WaysSame(ss: Streams, ss': Streams, x: NodeID)
    requires |ss| == |ss'|
    requires forall i :: 0 <= i < |ss| ==> multiset(ss[i])[x] == multiset(ss'[i])[x]
    ensures Ways(ss, x) == Ways(ss', x)
  {
    if ss != [] { WaysSame(ss[1..], ss'[1..], x); }
  }

  lemma {:induction false} DropBelowKeeps(s: seq<NodeID>, target: NodeID, x: NodeID)
    requires !Less(x, target)
    ensures multiset(DropBelow(s, target))[x] == multiset(s)[x]
    ensures Sorted(s) ==> Sorted(DropBelow(s, target))
  {
    if s != [] && Less(s[0], target) {
      assert s == [s[0]] + s[1..];
      DropBelowKeeps(s[1..], target, x);
    }
  }

  lemma {:induction false} DropEqualKeeps(s: seq<NodeID>, y: NodeID, x: NodeID)
    requires x != y
    ensures multiset(DropEqual(s, y))[x] == multiset(s)[x]
    ensures Sorted(s) ==> Sorted(DropEqual(s, y))
  {
    if s != [] && s[0] == y {
      assert s == [s[0]] + s[1..];
      DropEqualKeeps(s[1..], y, x);
    }
  }

  /** In a sorted list all copies of the first id are at the front. */
  lemma {:induction false} LeadIsAll(s: seq<NodeID>, y: NodeID)
    requires Sorted(s) && (s != [] ==> !Less(s[0], y))
    ensures LeadCount(s, y) == multiset(s)[y]
    ensures y !in DropEqual(s, y)
  {
    if s != [] {
      assert s == [s[0]] + s[1..];
      if s[0] == y {
        LeadIsAll(s[1..], y);
      } else {
        forall k | 0 <= k < |s| ensures s[k] != y { assert !Less(s[k], s[0]); }
      }
    }
  }

  lemma {:induction false} AdvanceKeeps(ss: Streams, target: NodeID, i: nat, x: NodeID)
    requires i <= |ss| && NoneEmpty(ss) && AllSorted(ss) && !Less(x, target)
    ensures var (ss', v) := Advance(ss, target, i);
            && |ss'| == |ss| && AllSorted(ss')
            && (forall k :: 0 <= k < |ss| ==> multiset(ss'[k])[x] == multiset(ss[k])[x])
            && (v.Exhausted? ==> exists k :: 0 <= k < |ss'| && ss'[k] == [])
    decreases |ss| - i
  {
    if i < |ss| && !Less(target, ss[i][0]) {
      var s := DropBelow(ss[i], target);
      DropBelowKeeps(ss[i], target, x);
      if s == [] {
        assert ss[i := s][i] == [];
      } else if !Less(target, s[0]) {
        AdvanceKeeps(ss[i := s], target, i + 1, x);
      }
    }
  }

  lemma {:induction false} ProductIsWays(ss: Streams, x: NodeID)
    requires AllSorted(ss) && NoneEmpty(ss) && (forall k :: 0 <= k < |ss| ==> ss[k][0] == x)
    ensures Product(ss, x) == Ways(ss, x)
  {
    if ss != [] {
      LeadIsAll(ss[0], x);
      ProductIsWays(ss[1..], x);
    }
  }

  lemma {:induction false} HighestIsFront(ss: Streams, target: NodeID)
    ensures var h := Highest(ss, target);
            !Less(h, target) && (h == target || exists k :: 0 <= k < |ss| && ss[k] != [] && ss[k][0] == h)
  {
    if ss != [] {
      var raised := if ss[0] != [] && Less(target, ss[0][0]) then ss[0][0] else target;
      HighestIsFront(ss[1..], raised);
      var h := Highest(ss, target);
      if h != raised {
        var k :| 0 <= k < |ss[1..]| && ss[1..][k] != [] && ss[1..][k][0] == h;
        assert ss[k + 1][0] == h;
      }
    }
  }

  /** Nothing below the first id of a sorted stream is in every stream. */
  lemma {:induction false} BelowFrontNoWays(ss: Streams, k: nat, x: NodeID)
    requires k < |ss| && ss[k] != [] && Sorted(ss[k]) && Less(x, ss[k][0])
    ensures Ways(ss, x) == 0
  {
    forall j | 0 <= j < |ss[k]| ensures ss[k][j] != x { assert j == 0 || !Less(ss[k][j], ss[k][0]); }
    WaysZero(ss, x, k);
  }

  lemma {:induction false} MultisetRepeat(x: NodeID, n: nat, y: NodeID)
    ensures multiset(Repeat(x, n))[y] == if x == y then n else 0
    decreases n
  {
    if n > 0 {
      assert Repeat(x, n) == Repeat(x, n - 1) + [x];
      MultisetRepeat(x, n - 1, y);
    }
  }

  /** On sorted lists the loop emits every id exactly as often as it can be picked once from
      every list, as far as it is not below the target. */
  lemma {:induction false} RunExact(ss: Streams, target: NodeID, x: NodeID)
    requires ss != [] && NoneEmpty(ss) && AllSorted(ss)
    ensures multiset(Run(ss, target))[x] == if Less(x, target) then 0 else Ways(ss, x)
    decreases TotalLength(ss), Ahead(ss, target) + 1
  {
    AdvanceShrinks(ss, target, 0);
    var (ss', v) := Advance(ss, target, 0);
    if !Less(x, target) {
      AdvanceKeeps(ss, target, 0, x);
      WaysSame(ss, ss', x);
    } else {
      AdvanceKeeps(ss, target, 0, target);
    }
    match v
    case Exhausted =>
      if !Less(x, target) {
        var k :| 0 <= k < |ss'| && ss'[k] == [];
        WaysZero(ss', x, k);
      }
    case Missed(target') =>
      AheadFalls(ss, target, target');
      RunExact(ss', target', x);
      var k :| 0 <= k < |ss'| && ss'[k] != [] && ss'[k][0] == target';
      if Less(x, target') { BelowFrontNoWays(ss', k, x); }
    case AllAtTarget =>
      PastAllShrinks(ss', target);
      RunExactAtTarget(ss', target, x);
  }

  lemma {:induction false} RunExactAtTarget(ss: Streams, target: NodeID, x: NodeID)
    requires ss != [] && NoneEmpty(ss) && AllSorted(ss) && (forall k :: 0 <= k < |ss| ==> ss[k][0] == target)
    ensures var next := PastAll(ss, target);
            var emitted := Repeat(target, Product(ss, target)) +
                           if NoneEmpty(next) then Run(next, Highest(next, target)) else [];
            multiset(emitted)[x] == if Less(x, target) then 0 else Ways(ss, x)
    decreases TotalLength(ss), 0
  {
    var next := PastAll(ss, target);
    ProductIsWays(ss, target);
    MultisetRepeat(target, Product(ss, target), x);
    forall k | 0 <= k < |ss| ensures Sorted(next[k]) && target !in next[k] {
      LeadIsAll(ss[k], target);
      DropEqualKeeps(ss[k], target, NodeID(target.tableID, target.offset + 1));
    }
    if x != target {
      forall k | 0 <= k < |ss| ensures multiset(next[k])[x] == multiset(ss[k])[x] {
        DropEqualKeeps(ss[k], target, x);
      }
      WaysSame(ss, next, x);
    } else {
      WaysZero(next, x, 0);
    }
    PastAllShrinks(ss, target);
    if NoneEmpty(next) {
      var h := Highest(next, target);
      HighestIsFront(next, target);
      RunExact(next, h, x);
      if Less(x, h) && !Less(x, target) && h != target {
        var k :| 0 <= k < |next| && next[k] != [] && next[k][0] == h;
        BelowFrontNoWays(next, k, x);
      }
    } else {
      var k :| 0 <= k < |next| && next[k] == [];
      WaysZero(next, x, k);
    }
  }

  /** The multiway intersection of sorted lists, as a bag. */
  lemma {:induction false} IntersectExact(ss: Streams, x: NodeID)
    requires ss != [] && NoneEmpty(ss) && AllSorted(ss)
    ensures multiset(Intersect(ss))[x] == Ways(ss, x)
  {
    RunExact(ss, ss[0][0], x);
    if Less(x, ss[0][0]) { BelowFrontNoWays(ss, 0, x); }
  }

  // ----- sortedness is exactly what the loop needs -----

  lemma {:induction false} AdjacentSorted(s: seq<NodeID>)
    requires forall p :: 0 <= p && p + 1 < |s| ==> !Less(s[p + 1], s[p])
    ensures Sorted(s)
  {
    forall i, j | 0 <= i < j < |s| ensures !Less(s[j], s[i]) {
      AdjacentBetween(s, i, j);
    }
  }

  lemma {:induction false} AdjacentBetween(s: seq<NodeID>, i: nat, j: nat)
    requires i < j < |s| && (forall p :: 0 <= p && p + 1 < |s| ==> !Less(s[p + 1], s[p]))
    ensures !Less(s[j], s[i])
    decreases j
  {
    assert !Less(s[j - 1 + 1], s[j - 1]);
    if i < j - 1 { AdjacentBetween(s, i, j - 1); }
  }

  /** A copy of `y` behind a greater id is not part of the run at the front. */
  lemma {:induction false} LeadMissesBehind(s: seq<NodeID>, p: nat, y: NodeID)
    requires p + 1 < |s| && Less(y, s[p]) && s[p + 1] == y
    ensures LeadCount(s, y) < multiset(s)[y]
    decreases p
  {
    assert s == [s[0]] + s[1..];
    if s[0] == y {
      LeadMissesBehind(s[1..], p - 1, y);
    } else {
      assert s[p + 1] in s;
    }
  }

  lemma {:induction false} DropBelowStopsBefore(s: seq<NodeID>, p: nat, y: NodeID)
    requires p + 1 < |s| && Less(y, s[p]) && s[p + 1] == y
    ensures var s' := DropBelow(s, y);
            && s' != [] && multiset(s')[y] == multiset(s)[y]
            && exists q :: 0 <= q && q + 1 < |s'| && Less(y, s'[q]) && s'[q + 1] == y
    decreases p
  {
    DropBelowKeeps(s, y, y);
    if Less(s[0], y) {
      DropBelowStopsBefore(s[1..], p - 1, y);
    } else {
      assert DropBelow(s, y) == s;
    }
  }

  /** Against the one-element list `[y]`, copies of `y` behind a greater id are lost. */
  lemma {:induction false} RunLosesBehind(s: seq<NodeID>, p: nat, y: NodeID)
    requires p + 1 < |s| && Less(y, s[p]) && s[p + 1] == y && !Less(s[0], y)
    ensures var r := Run([s, [y]], s[0]); multiset(r)[y] < multiset(s)[y]
  {
    var ss := [s, [y]];
    var x := s[0];
    assert s[p + 1] in s;
    assert DropBelow(s, x) == s && ss[0 := s] == ss;
    if x == y {
      assert DropBelow([y], x) == [y] && ss[1 := [y]] == ss;
      assert Advance(ss, x, 1) == (ss, AllAtTarget);
      var next := PastAll(ss, y);
      assert next[1] == DropEqual([y], y) == [];
      assert Run(ss, x) == Repeat(y, Product(ss, y)) + [];
      assert ss[1..] == [[y]] && [[y]][1..] == [];
      assert LeadCount([y], y) == 1 by { assert LeadCount([y][1..], y) == 0; }
      assert Product([], y) == 1;
      assert Product([[y]], y) == 1 * Product([[y]][1..], y);
      assert Product(ss, y) == LeadCount(s, y) * 1;
      MultisetRepeat(y, Product(ss, y), y);
      LeadMissesBehind(s, p, y);
    } else {
      assert DropBelow([y], x) == [];
      assert Advance(ss, x, 1) == (ss[1 := []], Exhausted);
      assert Run(ss, x) == [];
    }
  }

  lemma {:induction false} IntersectLosesBehind(s: seq<NodeID>, p: nat, y: NodeID)
    requires p + 1 < |s| && Less(y, s[p]) && s[p + 1] == y
    ensures multiset(Intersect([s, [y]]))[y] < Ways([s, [y]], y)
  {
    var ss := [s, [y]];
    assert ss[1..] == [[y]] && [[y]][1..] == [] && Ways([[y]], y) == multiset([y])[y] * 1;
    assert Ways(ss, y) == multiset(s)[y];
    if Less(s[0], y) {
      DropBelowStopsBefore(s, p, y);
      var s' := DropBelow(s, y);
      var q :| 0 <= q && q + 1 < |s'| && Less(y, s'[q]) && s'[q + 1] == y;
      assert DropBelow(s, s[0]) == s && ss[0 := s] == ss;
      assert Advance(ss, s[0], 0) == (ss, Missed(y));
      assert Run(ss, s[0]) == Run(ss, y);
      var ss' := [s', [y]];
      assert ss[0 := s'] == ss';
      RunLosesBehind(s', q, y);
      if Less(y, s'[0]) {
        assert Run(ss, y) == Run(ss', s'[0]);
      } else {
        RunSkips(s, y);
      }
    } else {
      RunLosesBehind(s, p, y);
    }
  }

  /** Going forward to the target first makes no difference. */
  lemma {:induction false} RunSkips(s: seq<NodeID>, y: NodeID)
    requires s != [] && DropBelow(s, y) != [] && DropBelow(s, y)[0] == y
    ensures Run([s, [y]], y) == Run([DropBelow(s, y), [y]], y)
  {
    var s' := DropBelow(s, y);
    var ss, ss' := [s, [y]], [s', [y]];
    assert DropBelow(s', y) == s' && ss'[0 := s'] == ss' && ss[0 := s'] == ss';
    assert Advance(ss, y, 0) == Advance(ss', y, 1) && Advance(ss', y, 0) == Advance(ss', y, 1);
  }

  /** A list can be intersected with every sorted list exactly when it is sorted itself. The
      operator sorts each chunk of a list, not the chunks against each other. */
  lemma {:induction false} SortedIffIntersects(s: seq<NodeID>)
    requires s != []
    ensures Sorted(s) <==>
            forall t: seq<NodeID>, x :: t != [] && Sorted(t) ==> multiset(Intersect([s, t]))[x] == Ways([s, t], x)
  {
    if Sorted(s) {
      forall t: seq<NodeID>, x | t != [] && Sorted(t) ensures multiset(Intersect([s, t]))[x] == Ways([s, t], x) {
        IntersectExact([s, t], x);
      }
    } else {
      if forall p :: 0 <= p && p + 1 < |s| ==> !Less(s[p + 1], s[p]) { AdjacentSorted(s); }
      var p :| 0 <= p && p + 1 < |s| && Less(s[p + 1], s[p]);
      var y := s[p + 1];
      IntersectLosesBehind(s, p, y);
      assert Sorted([y]);
    }
  }
}
