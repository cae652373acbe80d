/** The loop of the multiway intersect operator over lists that come in several chunks, with its
    cursors and its result vectors of fixed capacity. */
module IntersectMultiway {
  import opened Intersection

  type Chunks = seq<seq<NodeID>>

  function Flat(chunks: Chunks): seq<NodeID> {
    if chunks == [] then [] else chunks[0] + Flat(chunks[1..])
  }

  /** A position in a list of chunks. */
  datatype TupleCursor = TupleCursor(chunks: Chunks, tupleIdx: nat, eleIdx: nat, finished: bool) {

    ghost predicate Valid() {
      if finished then tupleIdx >= |chunks| else tupleIdx < |chunks| && eleIdx < |chunks[tupleIdx]|
    }

    /** The ids from the current one on. */
    ghost function Rest(): seq<NodeID>
      requires Valid()
    {
      if finished then [] else chunks[tupleIdx][eleIdx..] + Flat(chunks[tupleIdx + 1..])
    }

    function Current(): (id: NodeID)
      requires Valid() && !finished
      ensures Rest() != [] && id == Rest()[0]
    {
      chunks[tupleIdx][eleIdx]
    }
  }

  lemma {:induction false} FlatFrom(chunks: Chunks, t: nat)
    requires t < |chunks|
    ensures Flat(chunks[t..]) == chunks[t] + Flat(chunks[t + 1..])
  {
    assert chunks[t..][1..] == chunks[t + 1..];
  }

  /** The first chunk from `t` on that has an id. */
  method NextChunk(chunks: Chunks, start: nat) returns (t: nat)
    requires start <= |chunks|
    ensures start <= t <= |chunks| && Flat(chunks[t..]) == Flat(chunks[start..])
    ensures t < |chunks| ==> chunks[t] != []
  {
    t := start;
    while t < |chunks| && chunks[t] == []
      invariant start <= t <= |chunks| && Flat(chunks[t..]) == Flat(chunks[start..])
    {
      FlatFrom(chunks, t);
      t := t + 1;
    }
  }

  /** One id further, over the ends of chunks and over empty chunks. */
  method GotoNext(c: TupleCursor) returns (c': TupleCursor)
    requires c.Valid() && !c.finished
    ensures c'.Valid() && c'.chunks == c.chunks && c'.Rest() == c.Rest()[1..]
    ensures c'.finished <==> c'.Rest() == []
  {
    ghost var list, later := c.chunks[c.tupleIdx], Flat(c.chunks[c.tupleIdx + 1..]);
    assert c.Rest()[1..] == list[c.eleIdx + 1..] + later;
    if c.eleIdx + 1 < |c.chunks[c.tupleIdx]| {
      c' := c.(eleIdx := c.eleIdx + 1);
    } else {
      assert list[c.eleIdx + 1..] + later == later;
      var t := NextChunk(c.chunks, c.tupleIdx + 1);
      c' := TupleCursor(c.chunks, t, 0, t == |c.chunks|);
      if t < |c.chunks| {
        FlatFrom(c.chunks, t);
        assert c.chunks[t][0..] == c.chunks[t];
      }
    }
  }

  /** Forward to the first id that is not below the target. */
  method GoUntil(c: TupleCursor, target: NodeID) returns (c': TupleCursor)
    requires c.Valid() && !c.finished && Less(c.Current(), target)
    ensures c'.Valid() && c'.chunks == c.chunks && c'.Rest() == DropBelow(c.Rest(), target)
    ensures c'.finished <==> c'.Rest() == []
  {
    c' := GotoNext(c);
    while !c'.finished && Less(c'.Current(), target)
      invariant c'.Valid() && c'.chunks == c.chunks && (c'.finished <==> c'.Rest() == [])
      invariant DropBelow(c'.Rest(), target) == DropBelow(c.Rest(), target)
      decreases |c'.Rest()|
    {
      c' := GotoNext(c');
    }
  }

  /** Past the run of ids equal to the current one, counting them. */
  method PassRun(c: TupleCursor) returns (c': TupleCursor, count: nat)
    requires c.Valid() && !c.finished
    ensures c'.Valid() && c'.chunks == c.chunks && c'.Rest() == DropEqual(c.Rest(), c.Current())
    ensures count == LeadCount(c.Rest(), c.Current())
    ensures c'.finished <==> c'.Rest() == []
  {
    var x := c.Current();
    count := 1;
    c' := GotoNext(c);
    while !c'.finished && c'.Current() == x
      invariant c'.Valid() && c'.chunks == c.chunks && (c'.finished <==> c'.Rest() == [])
      invariant DropEqual(c'.Rest(), x) == DropEqual(c.Rest(), x)
      invariant count + LeadCount(c'.Rest(), x) == LeadCount(c.Rest(), x)
      decreases |c'.Rest()|
    {
      count := count + 1;
      c' := GotoNext(c');
    }
  }

  ghost predicate AllValid(cs: seq<TupleCursor>) {
    forall i :: 0 <= i < |cs| ==> cs[i].Valid() && (cs[i].finished <==> cs[i].Rest() == [])
  }

  ghost function Rests(cs: seq<TupleCursor>): Streams
    requires AllValid(cs)
  {
    seq(|cs|, i requires 0 <= i < |cs| => cs[i].Rest())
  }

  /** The cursors are at the heads of the streams. */
  ghost predicate Tracks(cs: seq<TupleCursor>, ss: Streams) {
    |cs| == |ss| && forall i :: 0 <= i < |cs| ==> Reached(cs[i], ss[i])
  }

  lemma {:induction false} TracksRests(cs: seq<TupleCursor>, ss: Streams)
    ensures AllValid(cs) && Rests(cs) == ss <==> Tracks(cs, ss)
  {
  }

  /** What bringing one stream to the target gives. */
  function One(s: seq<NodeID>, target: NodeID): (seq<NodeID>, Verdict)
    requires s != []
  {
    if Less(target, s[0]) then (s, Missed(s[0]))
    else
      var d := DropBelow(s, target);
      (d, if d == [] then Exhausted else if Less(target, d[0]) then Missed(d[0]) else AllAtTarget)
  }

  lemma {:induction false} AdvanceByOne(ss: Streams, target: NodeID, i: nat)
    requires i < |ss| && NoneEmpty(ss)
    ensures var (s, v) := One(ss[i], target);
            && (v.AllAtTarget? ==>
                NoneEmpty(ss[i := s]) && Advance(ss, target, i) == Advance(ss[i := s], target, i + 1))
            && (!v.AllAtTarget? ==> Advance(ss, target, i) == (ss[i := s], v))
  {
    assert ss[i := ss[i]] == ss;
  }

  method AdvanceOne(c: TupleCursor, target: NodeID) returns (c': TupleCursor, v: Verdict)
    requires c.Valid() && !c.finished
    ensures c'.Valid() && (c'.finished <==> c'.Rest() == []) && c.Rest() != [] &&
            (c'.Rest(), v) == One(c.Rest(), target)
  {
    c' := c;
    var id := c.Current();
    if Less(target, id) { return c, Missed(id); }
    if id != target {
      c' := GoUntil(c, target);
      if c'.finished { return c', Exhausted; }
      if Less(target, c'.Current()) { return c', Missed(c'.Current()); }
    }
    v := AllAtTarget;
  }

  /** Brings all cursors to the target, as far as they get there. */
  method AdvanceAll(cs: seq<TupleCursor>, target: NodeID) returns (cs': seq<TupleCursor>, v: Verdict)
    requires AllValid(cs) && NoneEmpty(Rests(cs))
    ensures AllValid(cs') && (Rests(cs'), v) == Advance(Rests(cs), target, 0)
  {
    cs' := cs;
    ghost var ss := Rests(cs);
    TracksRests(cs, ss);
    var i := 0;
    while i < |cs'|
      invariant 0 <= i <= |cs'| && Tracks(cs', ss) && NoneEmpty(ss) &&
                Advance(ss, target, i) == Advance(Rests(cs), target, 0)
    {
      AdvanceByOne(ss, target, i);
      assert Reached(cs'[i], ss[i]);
      var c, verdict := AdvanceOne(cs'[i], target);
      cs', ss := cs'[i := c], ss[i := c.Rest()];
      if !verdict.AllAtTarget? {
        TracksRests(cs', ss);
        return cs', verdict;
      }
      i := i + 1;
    }
    TracksRests(cs', ss);
    v := AllAtTarget;
  }

  /** The cursors before `i` are past their run of the target. */
  ghost predicate Passed(cs: seq<TupleCursor>, cs': seq<TupleCursor>, i: nat, target: NodeID, count: nat,
                         finished: bool, target': NodeID)
    requires AllValid(cs)
  {
    var before, after := Rests(cs), PastAll(Rests(cs), target);
    && i <= |cs'| == |cs|
    && (forall k :: 0 <= k < i ==> Reached(cs'[k], after[k]))
    && (forall k :: i <= k < |cs| ==> cs'[k] == cs[k])
    && count == Product(before[..i], target)
    && Highest(after[i..], target') == Highest(after, target)
    && (finished <==> EmptyBefore(after, i))
  }

  lemma {:induction false} PassedNext(cs: seq<TupleCursor>, cs': seq<TupleCursor>, i: nat, target: NodeID, count: nat,
                                      finished: bool, target': NodeID,
                                      c: TupleCursor, n: nat)
    requires AllValid(cs) && Passed(cs, cs', i, target, count, finished, target') && i < |cs|
    requires Reached(c, DropEqual(Rests(cs)[i], target)) && n == LeadCount(Rests(cs)[i], target)
    ensures Passed(cs, cs'[i := c], i + 1, target, count * n, finished || c.finished,
                   if !c.finished && Less(target', c.Rest()[0]) then c.Rest()[0] else target')
  {
    ProductNext(Rests(cs), i, target);
    HighestNext(PastAll(Rests(cs), target), i, target');
    EmptyBeforeNext(PastAll(Rests(cs), target), i);
  }

  lemma {:induction false} PassedAll(cs: seq<TupleCursor>, cs': seq<TupleCursor>, target: NodeID, count: nat,
                                     finished: bool, target': NodeID)
    requires AllValid(cs) && Passed(cs, cs', |cs|, target, count, finished, target')
    ensures AllValid(cs') && Rests(cs') == PastAll(Rests(cs), target) && count == Product(Rests(cs), target)
    ensures (finished <==> !NoneEmpty(Rests(cs'))) && target' == Highest(Rests(cs'), target)
  {
    var before, after := Rests(cs), PastAll(Rests(cs), target);
    assert before[..|cs|] == before && after[|cs|..] == [];
    forall k | 0 <= k < |cs'| ensures Reached(cs'[k], after[k]) {}
  }

  /** The results so far and the next target after one more cursor has passed its run. */
  method Tally(c: TupleCursor, n: nat, count: nat, finished: bool, target: NodeID)
    returns (count': nat, finished': bool, target': NodeID)
    requires c.Valid()
    ensures count' == count * n && finished' == (finished || c.finished)
    ensures target' == if !c.finished && Less(target, c.Rest()[0]) then c.Rest()[0] else target
  {
    count', finished', target' := count * n, finished, target;
    if c.finished {
      finished' := true;
    } else if Less(target, c.Current()) {
      target' := c.Current();
    }
  }

  /** All cursors past their run of the target: how many results that makes, whether a list has
      run out, and the next target. */
  method PassAll(cs: seq<TupleCursor>, target: NodeID)
    returns (cs': seq<TupleCursor>, count: nat, finished: bool, target': NodeID)
    requires AllValid(cs) && NoneEmpty(Rests(cs)) && (forall k :: 0 <= k < |cs| ==> Rests(cs)[k][0] == target)
    ensures AllValid(cs') && Rests(cs') == PastAll(Rests(cs), target)
    ensures count == Product(Rests(cs), target)
    ensures finished <==> !NoneEmpty(Rests(cs'))
    ensures target' == Highest(Rests(cs'), target)
  {
    cs', count, finished, target' := cs, 1, false, target;
    var i := 0;
    PassedNone(cs, target);
    while i < |cs'|
      invariant 0 <= i <= |cs'| == |cs| && Passed(cs, cs', i, target, count, finished, target')
    {
      assert cs'[i] == cs[i] && !cs[i].finished && cs[i].Current() == target by { assert Rests(cs)[i][0] == target; }
      var c, n := PassRun(cs'[i]);
      PassedNext(cs, cs', i, target, count, finished, target', c, n);
      count, finished, target' := Tally(c, n, count, finished, target');
      cs' := cs'[i := c];
      i := i + 1;
    }
    PassedAll(cs, cs', target, count, finished, target');
  }

  lemma {:induction false} PassedNone(cs: seq<TupleCursor>, target: NodeID)
    requires AllValid(cs)
    ensures Passed(cs, cs, 0, target, 1, false, target)
  {
    assert Rests(cs)[..0] == [] && PastAll(Rests(cs), target)[0..] == PastAll(Rests(cs), target);
  }

  ghost predicate EmptyBefore(ss: Streams, i: int) {
    exists k :: 0 <= k < i && k < |ss| && ss[k] == []
  }

  lemma {:induction false} EmptyBeforeNext(ss: Streams, i: nat)
    requires i < |ss|
    ensures EmptyBefore(ss, i + 1) <==> EmptyBefore(ss, i) || ss[i] == []
  {
  }

  lemma {:induction false} ProductNext(ss: Streams, i: nat, x: NodeID)
    requires i < |ss|
    ensures Product(ss[..i + 1], x) == Product(ss[..i], x) * LeadCount(ss[i], x)
    decreases i
  {
    if i == 0 {
      assert ss[..1] == [ss[0]] && [ss[0]][1..] == [] && ss[..0] == [];
    } else {
      assert ss[..i + 1][1..] == ss[1..][..i] && ss[..i][1..] == ss[1..][..i - 1];
      ProductNext(ss[1..], i - 1, x);
      MulAssoc(LeadCount(ss[0], x), Product(ss[1..][..i - 1], x), LeadCount(ss[i], x));
    }
  }

  lemma {:induction false} MulAssoc(a: nat, b: nat, c: nat)
    ensures a * (b * c) == a * b * c
  {
  }

  lemma {:induction false} HighestNext(ss: Streams, i: nat, target: NodeID)
    requires i < |ss|
    ensures Highest(ss[i..], target) ==
            Highest(ss[i + 1..], if ss[i] != [] && Less(target, ss[i][0]) then ss[i][0] else target)
  {
    assert ss[i..][1..] == ss[i + 1..];
  }

  ghost predicate Reached(c: TupleCursor, rest: seq<NodeID>) {
    c.Valid() && c.Rest() == rest && (c.finished <==> rest == [])
  }

  // ----- the result vectors -----

  /** Full vectors up to `at`, then one with room, then empty ones kept from earlier rows. */
  ghost predicate Filled(caches: Chunks, at: nat, capacity: nat) {
    && at < |caches| && |caches[at]| <= capacity
    && (forall k :: 0 <= k < at ==> |caches[k]| == capacity)
    && (forall k :: at < k < |caches| ==> caches[k] == [])
  }

  lemma {:induction false} FlatSplit(a: Chunks, b: Chunks)
    ensures Flat(a + b) == Flat(a) + Flat(b)
  {
    if a == [] {
      assert a + b == b;
    } else {
      assert (a + b)[1..] == a[1..] + b;
      FlatSplit(a[1..], b);
    }
  }

  lemma {:induction false} FlatEmpty(chunks: Chunks)
    requires forall k :: 0 <= k < |chunks| ==> chunks[k] == []
    ensures Flat(chunks) == []
  {
    if chunks != [] { FlatEmpty(chunks[1..]); }
  }

  lemma {:induction false} FlatAppend(caches: Chunks, at: nat, capacity: nat, more: seq<NodeID>)
    requires Filled(caches, at, capacity)
    ensures Flat(caches[at := caches[at] + more]) == Flat(caches) + more
  {
    var caches' := caches[at := caches[at] + more];
    var tail := caches[at + 1..];
    assert caches == caches[..at] + [caches[at]] + tail && caches' == caches[..at] + [caches'[at]] + tail;
    FlatSplit(caches[..at] + [caches[at]], tail);
    FlatSplit(caches[..at] + [caches'[at]], tail);
    FlatSplit(caches[..at], [caches[at]]);
    FlatSplit(caches[..at], [caches'[at]]);
    FlatEmpty(tail);
    assert [caches[at]][1..] == [] && [caches'[at]][1..] == [];
    assert Flat([caches[at]]) == caches[at] && Flat([caches'[at]]) == caches'[at];
  }

  lemma {:induction false} RepeatMore(x: NodeID, m: nat, n: nat)
    ensures Repeat(x, m) + Repeat(x, n) == Repeat(x, m + n)
  {
  }

  /** After a full vector, the next one, which is new if there is none. */
  method NextVector(caches: Chunks, at: nat, capacity: nat) returns (caches': Chunks, at': nat)
    requires Filled(caches, at, capacity) && |caches[at]| == capacity
    ensures Filled(caches', at', capacity) && caches'[at'] == []
    ensures Flat(caches') == Flat(caches) && |caches'| >= |caches|
  {
    caches', at' := caches, at + 1;
    if at + 1 == |caches| {
      FlatSplit(caches, [[]]);
      FlatEmpty([[]]);
      caches' := caches + [[]];
    }
  }

  /** Writes an id `count` times, going on in the next vector, or a new one, when one is full. */
  method Emit(caches: Chunks, at: nat, capacity: nat, x: NodeID, count: nat) returns (caches': Chunks, at': nat)
    requires Filled(caches, at, capacity) && capacity > 0
    ensures Filled(caches', at', capacity) && Flat(caches') == Flat(caches) + Repeat(x, count)
    ensures |caches'| >= |caches|
  {
    caches', at' := caches, at;
    var left := count;
    assert Repeat(x, 0) == [];
    while left > 0
      invariant 0 <= left <= count && Filled(caches', at', capacity) && |caches'| >= |caches|
      invariant Flat(caches') == Flat(caches) + Repeat(x, count - left)
      decreases left, if |caches'[at']| == capacity then 1 else 0
    {
      var room := capacity - |caches'[at']|;
      var now := if room >= left then left else room;
      FlatAppend(caches', at', capacity, Repeat(x, now));
      RepeatMore(x, count - left, now);
      caches' := caches'[at' := caches'[at'] + Repeat(x, now)];
      if room < left {
        caches', at' := NextVector(caches', at', capacity);
      }
      left := left - now;
    }
  }

  /** Writes a target the round has found, and notes that the result is not empty. */
  method Write(caches: Chunks, at: nat, capacity: nat, empty: bool, x: NodeID, count: nat)
    returns (caches': Chunks, at': nat, empty': bool)
    requires Filled(caches, at, capacity) && capacity > 0 && (empty <==> Flat(caches) == [])
    ensures Filled(caches', at', capacity) && Flat(caches') == Flat(caches) + Repeat(x, count)
    ensures |caches'| >= |caches| && (empty' <==> Flat(caches') == [])
  {
    caches', at', empty' := caches, at, empty;
    if count > 0 {
      empty' := false;
      caches', at' := Emit(caches, at, capacity, x, count);
    } else {
      assert Repeat(x, 0) == [];
    }
  }

  /** The lists a probe row has found for one output node, one per connected probe node. */
  ghost predicate Probed(lists: seq<Chunks>) {
    |lists| > 0 && forall i :: 0 <= i < |lists| ==> |lists[i]| > 0 && lists[i][0] != []
  }

  ghost function Lists(lists: seq<Chunks>): Streams {
    seq(|lists|, i requires 0 <= i < |lists| => Flat(lists[i]))
  }

  lemma {:induction false} ProductPositive(ss: Streams, x: NodeID)
    requires NoneEmpty(ss) && (forall k :: 0 <= k < |ss| ==> ss[k][0] == x)
    ensures Product(ss, x) > 0
  {
    if ss != [] { ProductPositive(ss[1..], x); }
  }

  /** What is left of the loop shrinks: fewer ids, or as many with fewer lists ahead of the target. */
  ghost predicate Shrinks(ss: Streams, target: NodeID, ss': Streams, target': NodeID)
    requires NoneEmpty(ss) && NoneEmpty(ss')
  {
    TotalLength(ss') < TotalLength(ss) ||
      (TotalLength(ss') == TotalLength(ss) && Ahead(ss', target') < Ahead(ss, target))
  }

  lemma {:induction false} RunMissed(ss: Streams, target: NodeID)
    requires ss != [] && NoneEmpty(ss)
    ensures var (ss', v) := Advance(ss, target, 0);
            && (v.Exhausted? ==> Run(ss, target) == [])
            && (v.Missed? ==>
                  && ss' != [] && NoneEmpty(ss') && Run(ss, target) == Run(ss', v.target)
                  && Shrinks(ss, target, ss', v.target))
  {
    AdvanceShrinks(ss, target, 0);
    var (ss', v) := Advance(ss, target, 0);
    if v.Missed? { AheadFalls(ss, target, v.target); }
  }

  lemma {:induction false} RunHit(ss: Streams, target: NodeID)
    requires ss != [] && NoneEmpty(ss) && Advance(ss, target, 0).1.AllAtTarget?
    ensures var ss' := Advance(ss, target, 0).0;
            && ss' != [] && NoneEmpty(ss') && (forall k :: 0 <= k < |ss'| ==> ss'[k][0] == target)
            && Product(ss', target) > 0
            && var next := PastAll(ss', target);
            && TotalLength(next) < TotalLength(ss)
            && Run(ss, target) == Repeat(target, Product(ss', target)) +
                                  if NoneEmpty(next) then Run(next, Highest(next, target)) else []
  {
    AdvanceShrinks(ss, target, 0);
    var ss' := Advance(ss, target, 0).0;
    PastAllShrinks(ss', target);
    ProductPositive(ss', target);
  }

  /** One round of the loop: how often the target is in the result, and where to go on for what
      is left. */
  method Round(cs: seq<TupleCursor>, target: NodeID)
    returns (cs': seq<TupleCursor>, count: nat, finished: bool, target': NodeID, ghost left: seq<NodeID>)
    requires |cs| > 0 && AllValid(cs) && NoneEmpty(Rests(cs))
    ensures |cs'| > 0 && AllValid(cs')
    ensures Run(Rests(cs), target) == Repeat(target, count) + left
    ensures finished ==> left == []
    ensures !finished ==>
              && NoneEmpty(Rests(cs')) && Shrinks(Rests(cs), target, Rests(cs'), target')
              && left == Run(Rests(cs'), target')
  {
    var v;
    ghost var ss := Rests(cs);
    cs', v := AdvanceAll(cs, target);
    RunMissed(ss, target);
    assert Repeat(target, 0) == [];
    match v
    case Exhausted =>
      AdvanceShrinks(ss, target, 0);
      assert |Rests(cs')| == |ss|;
      count, finished, target', left := 0, true, target, [];
    case Missed(next) =>
      count, finished, target', left := 0, false, next, Run(Rests(cs'), next);
      assert [] + left == left;
    case AllAtTarget =>
      RunHit(ss, target);
      cs', count, finished, target' := PassAll(cs', target);
      left := if finished then [] else Run(Rests(cs'), target');
  }

  lemma {:induction false} StartCursors(lists: seq<Chunks>, cs: seq<TupleCursor>)
    requires Probed(lists) && |cs| == |lists|
    requires forall i :: 0 <= i < |cs| ==> cs[i] == TupleCursor(lists[i], 0, 0, false)
    ensures AllValid(cs) && Rests(cs) == Lists(lists) && NoneEmpty(Lists(lists))
    ensures cs[0].Current() == Lists(lists)[0][0]
  {
    forall i | 0 <= i < |cs| ensures cs[i].Valid() && cs[i].Rest() == Flat(lists[i]) && Flat(lists[i]) != [] {
      assert lists[i][0][0..] == lists[i][0];
    }
  }

  /** Intersects the lists into the result vectors, of which `slots` are left from earlier rows. */
  method MultiwayIntersect(lists: seq<Chunks>, slots: nat, capacity: nat) returns (caches: Chunks, empty: bool)
    requires Probed(lists) && slots > 0 && capacity > 0
    ensures NoneEmpty(Lists(lists)) && Flat(caches) == Intersect(Lists(lists))
    ensures exists at :: Filled(caches, at, capacity)
    ensures |caches| >= slots
    ensures empty <==> Intersect(Lists(lists)) == []
  {
    var cs := seq(|lists|, i requires 0 <= i < |lists| => TupleCursor(lists[i], 0, 0, false));
    StartCursors(lists, cs);
    caches := seq(slots, _ => []);
    FlatEmpty(caches);
    var target := cs[0].Current();
    var at;
    caches, at, empty := IntersectLoop(cs, target, caches, capacity);
  }

  /** The loop is at the start of a round, with `left` to find. */
  ghost predicate AtRound(cs: seq<TupleCursor>, target: NodeID, left: seq<NodeID>, size: nat, ahead: nat) {
    && cs != [] && AllValid(cs) && NoneEmpty(Rests(cs)) && left == Run(Rests(cs), target)
    && size == TotalLength(Rests(cs)) && ahead == Ahead(Rests(cs), target)
  }

  /** One round, with its result written. */
  method RoundWritten(cs: seq<TupleCursor>, target: NodeID, caches: Chunks, at: nat, capacity: nat, empty: bool,
                      ghost left: seq<NodeID>, ghost size: nat, ghost ahead: nat)
    returns (cs': seq<TupleCursor>, target': NodeID, caches': Chunks, at': nat, empty': bool, finished: bool,
             ghost left': seq<NodeID>, ghost size': nat, ghost ahead': nat)
    requires AtRound(cs, target, left, size, ahead)
    requires Filled(caches, at, capacity) && capacity > 0 && (empty <==> Flat(caches) == [])
    ensures Filled(caches', at', capacity) && |caches'| >= |caches| && (empty' <==> Flat(caches') == [])
    ensures Flat(caches') + left' == Flat(caches) + left
    ensures finished ==> left' == []
    ensures !finished ==>
              AtRound(cs', target', left', size', ahead') && (size' < size || (size' == size && ahead' < ahead))
  {
    var count;
    cs', count, finished, target', left' := Round(cs, target);
    caches', at', empty' := Write(caches, at, capacity, empty, target, count);
    assert Flat(caches) + (Repeat(target, count) + left') == Flat(caches) + Repeat(target, count) + left';
    size', ahead' := 0, 0;
    if !finished { size', ahead' := TotalLength(Rests(cs')), Ahead(Rests(cs'), target'); }
  }

  /** Rounds until a list has run out. */
  method IntersectLoop(start: seq<TupleCursor>, first: NodeID, vectors: Chunks, capacity: nat)
    returns (caches: Chunks, at: nat, empty: bool)
    requires start != [] && AllValid(start) && NoneEmpty(Rests(start))
    requires Filled(vectors, 0, capacity) && capacity > 0 && Flat(vectors) == []
    ensures Filled(caches, at, capacity) && |caches| >= |vectors|
    ensures Flat(caches) == Run(Rests(start), first) && (empty <==> Flat(caches) == [])
  {
    var cs, target, finished := start, first, false;
    caches, at, empty := vectors, 0, true;
    ghost var whole := Run(Rests(start), first);
    ghost var left, size, ahead := whole, TotalLength(Rests(start)), Ahead(Rests(start), first);
    assert [] + left == left;
    while !finished
      invariant Filled(caches, at, capacity) && |caches| >= |vectors| && (empty <==> Flat(caches) == [])
      invariant Flat(caches) + left == whole && (finished ==> left == [])
      invariant !finished ==> AtRound(cs, target, left, size, ahead)
      decreases !finished, size, ahead
    {
      cs, target, caches, at, empty, finished, left, size, ahead :=
        RoundWritten(cs, target, caches, at, capacity, empty, left, size, ahead);
    }
    assert Flat(caches) + [] == Flat(caches);
  }
}
