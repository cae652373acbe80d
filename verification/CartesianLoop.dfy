/** The loop state of the multiway intersect operator: an odometer over the result vectors of
    the output nodes, the first node turning fastest. */
module CartesianLoop {
  import opened Intersection
  import opened IntersectMultiway

  datatype Position = Done | At(digits: seq<nat>)

  function Zeros(n: nat): seq<nat> {
    seq(n, _ => 0)
  }

  /** A position picks one vector for every node. */
  ghost predicate Fits(c: seq<nat>, live: seq<Chunks>) {
    |c| == |live| && (live != [] ==> c[0] < |live[0]| && Fits(c[1..], live[1..]))
  }

  /** The position after `c`. */
  function Next(c: seq<nat>, live: seq<Chunks>): (p: Position)
    requires |c| == |live|
    ensures p.At? ==> |p.digits| == |c|
  {
    if c == [] then Done
    else if c[0] + 1 < |live[0]| then At([c[0] + 1] + c[1..])
    else match Next(c[1..], live[1..])
         case Done => Done
         case At(d) => At([0] + d)
  }

  lemma {:induction false} NextFits(c: seq<nat>, live: seq<Chunks>)
    requires Fits(c, live)
    ensures Next(c, live).At? ==> Fits(Next(c, live).digits, live)
  {
    if c != [] {
      if c[0] + 1 < |live[0]| {
        assert ([c[0] + 1] + c[1..])[1..] == c[1..];
      } else {
        NextFits(c[1..], live[1..]);
        assert Next(c, live).At? ==> Next(c, live).digits[1..] == Next(c[1..], live[1..]).digits;
      }
    }
  }

  /** Carrying over the first `j` digits, all at their ends. */
  lemma {:induction false} NextCarries(c: seq<nat>, live: seq<Chunks>, j: nat)
    requires |c| == |live| && j <= |c|
    requires forall k :: 0 <= k < j ==> c[k] + 1 >= |live[k]|
    ensures Next(c, live) == match Next(c[j..], live[j..])
                             case Done => Done
                             case At(d) => At(Zeros(j) + d)
  {
    if j == 0 {
      assert c[0..] == c && live[0..] == live;
      assert Next(c, live).At? ==> Zeros(0) + Next(c, live).digits == Next(c, live).digits;
    } else {
      assert c[1..][j - 1..] == c[j..] && live[1..][j - 1..] == live[j..];
      NextCarries(c[1..], live[1..], j - 1);
      if Next(c[j..], live[j..]).At? {
        var d := Next(c[j..], live[j..]).digits;
        assert [0] + (Zeros(j - 1) + d) == Zeros(j) + d;
      }
    }
  }

  /** With the digits before `j` at their ends, digit `j` turns, or all are at their ends. */
  lemma {:induction false} NextAt(c: seq<nat>, live: seq<Chunks>, j: nat)
    requires |c| == |live| && j < |c| && forall k :: 0 <= k < j ==> c[k] + 1 == |live[k]|
    ensures c[j] + 1 < |live[j]| ==> Next(c, live) == At(Zeros(j) + ([c[j] + 1] + c[j + 1..]))
    ensures c[j] + 1 >= |live[j]| && j + 1 == |c| ==> Next(c, live) == Done
  {
    NextCarries(c, live, j);
    assert c[j..][0] == c[j] && live[j..][0] == live[j];
    assert c[j..][1..] == c[j + 1..] && live[j..][1..] == live[j + 1..];
    assert j + 1 == |c| ==> c[j + 1..] == [];
  }

  lemma {:induction false} FitsAll(c: seq<nat>, live: seq<Chunks>)
    requires |c| == |live|
    ensures Fits(c, live) <==> forall j :: 0 <= j < |c| ==> c[j] < |live[j]|
  {
    if c != [] {
      FitsAll(c[1..], live[1..]);
      assert forall j :: 0 < j < |c| ==> c[j] == c[1..][j - 1] && live[j] == live[1..][j - 1];
    }
  }

  // ----- what the output vectors show -----

  function Last(chunks: Chunks): seq<NodeID>
    requires chunks != []
  {
    chunks[|chunks| - 1]
  }

  /** Vectors with ids in them, the last no longer than the first. */
  ghost predicate Loaded(chunks: Chunks) {
    chunks != [] && (forall k :: 0 <= k < |chunks| ==> chunks[k] != []) && |Last(chunks)| <= |chunks[0]|
  }

  ghost predicate AllLoaded(live: seq<Chunks>) {
    live == [] || (Loaded(live[0]) && AllLoaded(live[1..]))
  }

  lemma {:induction false} LoadedEach(live: seq<Chunks>)
    ensures AllLoaded(live) <==> forall j :: 0 <= j < |live| ==> Loaded(live[j])
  {
    if live != [] {
      LoadedEach(live[1..]);
      assert forall j :: 0 < j < |live| ==> live[j] == live[1..][j - 1];
    }
  }

  /** What is shown of the first vector once its digit has carried. The first vector and the output
      vector share their size, so this is as much as was last shown. */
  function Cut(chunks: Chunks): seq<NodeID>
    requires chunks != [] && |Last(chunks)| <= |chunks[0]|
  {
    chunks[0][..|Last(chunks)|]
  }

  /** A digit at zero has carried exactly if a later digit is not at zero. */
  ghost function ShownFirst(live: seq<Chunks>, c: seq<nat>): seq<NodeID>
    requires live != [] && |c| == |live| && c[0] < |live[0]| && Loaded(live[0])
  {
    if c[0] == 0 && c[1..] != Zeros(|c| - 1) then Cut(live[0]) else live[0][c[0]]
  }

  ghost function Shown(live: seq<Chunks>, c: seq<nat>): (r: seq<seq<NodeID>>)
    requires Fits(c, live) && AllLoaded(live)
    ensures |r| == |live|
    decreases |live|
  {
    if live == [] then [] else [ShownFirst(live, c)] + Shown(live[1..], c[1..])
  }

  ghost function ShownAt(live: seq<Chunks>, c: seq<nat>, j: nat): seq<NodeID>
    requires j < |live| == |c| && c[j] < |live[j]| && Loaded(live[j])
  {
    ShownFirst(live[j..], c[j..])
  }

  lemma {:induction false} ShownEach(live: seq<Chunks>, c: seq<nat>, j: nat)
    requires Fits(c, live) && AllLoaded(live) && j < |live|
    ensures c[j] < |live[j]| && Loaded(live[j]) && Shown(live, c)[j] == ShownAt(live, c, j)
  {
    if j == 0 {
      assert live[0..] == live && c[0..] == c;
    } else {
      ShownEach(live[1..], c[1..], j - 1);
      assert live[1..][j - 1..] == live[j..] && c[1..][j - 1..] == c[j..];
    }
  }

  /** The number of positions after `c`. */
  ghost function PositionsLeft(live: seq<Chunks>, c: seq<nat>): int
    requires |c| == |live|
    decreases |live|
  {
    if live == [] then 0 else |live[0]| - 1 - c[0] + |live[0]| * PositionsLeft(live[1..], c[1..])
  }

  lemma {:induction false} PositionsFall(c: seq<nat>, live: seq<Chunks>)
    requires Fits(c, live)
    ensures PositionsLeft(live, c) >= 0
    ensures Next(c, live).At? ==> 0 <= PositionsLeft(live, Next(c, live).digits) < PositionsLeft(live, c)
  {
    if c != [] {
      PositionsFall(c[1..], live[1..]);
      var n, left := |live[0]|, PositionsLeft(live[1..], c[1..]);
      assert n * left >= 0;
      if c[0] + 1 < n {
        assert ([c[0] + 1] + c[1..])[1..] == c[1..];
      } else if Next(c, live).At? {
        var d := Next(c[1..], live[1..]).digits;
        assert ([0] + d)[1..] == d;
        MulLess(n, PositionsLeft(live[1..], d), left);
      }
    }
  }

  lemma {:induction false} MulLess(n: nat, a: nat, b: nat)
    requires a < b
    ensures 0 <= n * a <= n * b - n
  {
    if n > 0 {
      MulLess(n - 1, a, b);
      assert n * a == (n - 1) * a + a && n * b == (n - 1) * b + b;
    }
  }

  /** The pieces given out at the positions after `c`. */
  ghost function Later(live: seq<Chunks>, c: seq<nat>): (pieces: seq<seq<seq<NodeID>>>)
    requires Fits(c, live) && AllLoaded(live)
    ensures forall p :: p in pieces ==> |p| == |live|
    decreases PositionsLeft(live, c)
  {
    NextFits(c, live);
    PositionsFall(c, live);
    match Next(c, live)
    case Done => []
    case At(d) => [Shown(live, d)] + Later(live, d)
  }

  lemma {:induction false} ZerosFit(live: seq<Chunks>)
    requires AllLoaded(live)
    ensures Fits(Zeros(|live|), live)
  {
    if live != [] {
      ZerosFit(live[1..]);
      assert Zeros(|live|)[1..] == Zeros(|live| - 1);
    }
  }

  /** All pieces, from the start on. */
  ghost function Pieces(live: seq<Chunks>): (pieces: seq<seq<seq<NodeID>>>)
    requires AllLoaded(live)
    ensures forall p :: p in pieces ==> |p| == |live|
  {
    ZerosFit(live);
    [Shown(live, Zeros(|live|))] + Later(live, Zeros(|live|))
  }

  // ----- caches that keep vectors of earlier rows, emptied -----

  /** The vectors in use: those before the first empty one. */
  function InUse(cache: Chunks): (r: Chunks)
    ensures r <= cache && (forall k :: 0 <= k < |r| ==> r[k] != [])
    ensures |r| < |cache| ==> cache[|r|] == []
  {
    if cache == [] || cache[0] == [] then [] else [cache[0]] + InUse(cache[1..])
  }

  function AllInUse(caches: seq<Chunks>): (r: seq<Chunks>)
    ensures |r| == |caches|
  {
    seq(|caches|, j requires 0 <= j < |caches| => InUse(caches[j]))
  }

  class LoopState {
    var cursors: seq<nat>
    var finished: bool
    var out: seq<seq<NodeID>>
    /** The size an output vector shares with the first result vector of its node. */
    var shared: seq<nat>

    constructor (n: nat)
      ensures finished && cursors == Zeros(n) && |out| == n && shared == Zeros(n)
    {
      cursors, finished, out, shared := Zeros(n), true, seq(n, _ => []), Zeros(n);
    }

    /** The output vectors show what is due at the cursors. */
    ghost predicate Shows(live: seq<Chunks>)
      reads this
    {
      && Fits(cursors, live) && AllLoaded(live) && out == Shown(live, cursors)
      && |shared| == |live| && forall j :: 0 <= j < |live| ==> shared[j] == |out[j]|
    }

    /** Shows a result vector. For the first one the size is the shared one. */
    method Fill(caches: seq<Chunks>, j: nat, k: nat)
      requires j < |caches| == |out| == |shared| && k < |caches[j]| && (k == 0 ==> shared[j] <= |caches[j][0]|)
      modifies this`out, this`shared
      ensures shared == old(shared)[j := if k == 0 then old(shared)[j] else |caches[j][k]|]
      ensures out == old(out)[j := if k == 0 then caches[j][0][..old(shared)[j]] else caches[j][k]]
    {
      var size := if k == 0 then shared[j] else |caches[j][k]|;
      out := out[j := caches[j][k][..size]];
      shared := shared[j := size];
      assert k > 0 ==> caches[j][k][..size] == caches[j][k];
    }

    method Reset(caches: seq<Chunks>)
      requires |cursors| == |out| == |shared| == |caches| && AllLoaded(AllInUse(caches))
      requires forall j :: 0 <= j < |caches| ==> |caches[j]| > 0 && shared[j] == |caches[j][0]|
      modifies this
      ensures !finished && cursors == Zeros(|caches|) && Shows(AllInUse(caches))
    {
      cursors, finished := Zeros(|cursors|), false;
      var j := 0;
      while j < |cursors|
        invariant 0 <= j <= |cursors| == |out| == |caches| && !finished && cursors == Zeros(|caches|)
        invariant shared == old(shared) && forall k :: 0 <= k < j ==> out[k] == caches[k][0]
      {
        Fill(caches, j, 0);
        assert caches[j][0][..|caches[j][0]|] == caches[j][0];
        j := j + 1;
      }
      StartShown(caches, out);
    }

    /** Digit `j` up by one, or back to zero when it is at its end. */
    method Turn(caches: seq<Chunks>, ghost c: seq<nat>, j: nat) returns (stop: bool)
      requires j < |caches| && !finished && Carried(caches, c, j, cursors, out, shared)
      modifies this
      ensures var live := AllInUse(caches);
              if c[j] + 1 < |live[j]| then
                stop && !finished && Shows(live) && cursors == Zeros(j) + ([c[j] + 1] + c[j + 1..])
              else if j + 1 < |c| then !stop && !finished && Carried(caches, c, j + 1, cursors, out, shared)
              else !stop && finished && |cursors| == |out| == |shared| == |caches|
    {
      ghost var before := (cursors, out, shared);
      AtDigit(caches, c, j, cursors, out, shared);
      cursors := cursors[j := cursors[j] + 1];
      stop := false;
      if cursors[j] >= |caches[j]| || caches[j][cursors[j]] == [] {
        if j < |cursors| - 1 {
          if cursors[j] != 1 {
            Fill(caches, j, 0);
          }
          cursors := cursors[j := 0];
          CarriesOn(caches, c, j, before.0, before.1, before.2, cursors, out, shared);
        } else {
          finished := true;
        }
      } else {
        Fill(caches, j, cursors[j]);
        TurnsUp(caches, c, j, before.0, before.1, before.2, cursors, out, shared);
        stop := true;
      }
    }

    /** One position further; the output vectors follow. */
    method GotoNext(caches: seq<Chunks>)
      requires !finished && Shows(AllInUse(caches)) && |caches| > 0
      modifies this
      ensures |cursors| == |out| == |shared| == |caches|
      ensures finished <==> Next(old(cursors), AllInUse(caches)).Done?
      ensures !finished ==> Shows(AllInUse(caches)) && cursors == Next(old(cursors), AllInUse(caches)).digits
    {
      ghost var live := AllInUse(caches);
      ghost var c := cursors;
      var j, stop := 0, false;
      CarriedNone(caches, c, out, shared);
      while j < |cursors| && !stop
        invariant 0 <= j <= |cursors| == |caches| == |out| == |shared|
        invariant stop ==> !finished && Shows(live) && Next(c, live) == At(cursors)
        invariant !stop && j < |caches| ==> !finished && Carried(caches, c, j, cursors, out, shared)
        invariant !stop && j == |caches| ==> finished && Next(c, live).Done?
      {
        NextAt(c, live, j);
        stop := Turn(caches, c, j);
        j := j + 1;
      }
    }
  }

  lemma {:induction false} StartShown(caches: seq<Chunks>, out: seq<seq<NodeID>>)
    requires |out| == |caches| && AllLoaded(AllInUse(caches))
    requires forall k :: 0 <= k < |caches| ==> |caches[k]| > 0 && out[k] == caches[k][0]
    ensures var live := AllInUse(caches); Fits(Zeros(|live|), live) && out == Shown(live, Zeros(|live|))
  {
    var live := AllInUse(caches);
    ZerosFit(live);
    forall j | 0 <= j < |live| ensures Shown(live, Zeros(|live|))[j] == out[j] {
      ShownEach(live, Zeros(|live|), j);
      assert Zeros(|live|)[j..][1..] == Zeros(|live| - j - 1);
      assert live[j][0] == caches[j][0];
    }
  }

  /** The digits before `j` have carried and the rest are still as they were. */
  ghost predicate Carried(caches: seq<Chunks>, c: seq<nat>, j: nat, cursors: seq<nat>, out: seq<seq<NodeID>>,
                          shared: seq<nat>) {
    var live := AllInUse(caches);
    && Fits(c, live) && AllLoaded(live) && j <= |c| == |out| == |shared| && cursors == Zeros(j) + c[j..]
    && (forall k :: 0 <= k < j ==> c[k] + 1 == |live[k]| && Loaded(live[k]) && out[k] == Cut(live[k]))
    && (forall k :: j <= k < |c| ==> c[k] < |live[k]| && Loaded(live[k]) && out[k] == ShownAt(live, c, k))
    && (forall k :: 0 <= k < |c| ==> shared[k] == |out[k]|)
  }

  lemma {:induction false} CarriedNone(caches: seq<Chunks>, c: seq<nat>, out: seq<seq<NodeID>>, shared: seq<nat>)
    requires var live := AllInUse(caches);
             && Fits(c, live) && AllLoaded(live) && out == Shown(live, c)
             && |shared| == |live| && forall j :: 0 <= j < |live| ==> shared[j] == |out[j]|
    ensures Carried(caches, c, 0, c, out, shared)
  {
    assert Zeros(0) + c[0..] == c;
    var live := AllInUse(caches);
    forall k | 0 <= k < |c| ensures c[k] < |live[k]| && Loaded(live[k]) && out[k] == ShownAt(live, c, k) {
      ShownEach(live, c, k);
    }
  }

  lemma {:induction false} AtDigit(caches: seq<Chunks>, c: seq<nat>, j: nat, cursors: seq<nat>, out: seq<seq<NodeID>>,
                                   shared: seq<nat>)
    requires Carried(caches, c, j, cursors, out, shared) && j < |c|
    ensures |cursors| == |caches| && cursors[j] == c[j] && c[j] < |AllInUse(caches)[j]| <= |caches[j]|
    ensures c[j] + 1 < |AllInUse(caches)[j]| <==> c[j] + 1 < |caches[j]| && caches[j][c[j] + 1] != []
    ensures c[j] + 1 == |AllInUse(caches)[j]| ==> shared[j] <= |caches[j][0]|
  {
    var live := AllInUse(caches);
    assert Loaded(live[j]) && live[j][0] == caches[j][0] && c[j..][0] == c[j] && live[j..][0] == live[j];
  }

  lemma {:induction false} LastShown(live: seq<Chunks>, c: seq<nat>, j: nat)
    requires j < |live| == |c| && c[j] + 1 == |live[j]| && Loaded(live[j])
    ensures |ShownAt(live, c, j)| == |Last(live[j])| && (c[j] == 0 ==> ShownAt(live, c, j) == Cut(live[j]))
  {
    assert c[j..][0] == c[j] && live[j..][0] == live[j];
    assert c[j] == 0 ==> Cut(live[j]) == live[j][0];
  }

  /** Before its carry a digit shows its last vector, so its first one is cut to that size. */
  lemma {:induction false} CarriesOn(caches: seq<Chunks>, c: seq<nat>, j: nat, cursors: seq<nat>,
                                     out: seq<seq<NodeID>>, shared: seq<nat>,
                                     cursors': seq<nat>, out': seq<seq<NodeID>>, shared': seq<nat>)
    requires Carried(caches, c, j, cursors, out, shared) && j < |c| && c[j] + 1 == |AllInUse(caches)[j]|
    requires cursors' == cursors[j := 0] && shared' == shared && |caches[j]| > 0 && shared[j] <= |caches[j][0]|
    requires out' == if c[j] + 1 != 1 then out[j := caches[j][0][..shared[j]]] else out
    ensures Carried(caches, c, j + 1, cursors', out', shared')
  {
    var live := AllInUse(caches);
    assert cursors' == Zeros(j + 1) + c[j + 1..];
    LastShown(live, c, j);
    assert live[j][0] == caches[j][0];
  }

  lemma {:induction false} TurnsUp(caches: seq<Chunks>, c: seq<nat>, j: nat, cursors: seq<nat>, out: seq<seq<NodeID>>,
                                   shared: seq<nat>,
                                   cursors': seq<nat>, out': seq<seq<NodeID>>, shared': seq<nat>)
    requires Carried(caches, c, j, cursors, out, shared) && j < |c| && c[j] + 1 < |AllInUse(caches)[j]|
    requires cursors' == cursors[j := c[j] + 1] && out' == out[j := caches[j][c[j] + 1]]
    requires shared' == shared[j := |caches[j][c[j] + 1]|]
    ensures var live := AllInUse(caches);
            && cursors' == Zeros(j) + ([c[j] + 1] + c[j + 1..]) && Fits(cursors', live) && out' == Shown(live, cursors')
            && |shared'| == |live| && forall k :: 0 <= k < |live| ==> shared'[k] == |out'[k]|
  {
    var live := AllInUse(caches);
    var d := Zeros(j) + ([c[j] + 1] + c[j + 1..]);
    assert cursors' == d;
    FitsAll(c, live);
    FitsAll(d, live);
    forall k | 0 <= k < |live| ensures Shown(live, d)[k] == out'[k] { ShownTurned(live, c, j, d, k); }
  }

  lemma {:induction false} ShownTurned(live: seq<Chunks>, c: seq<nat>, j: nat, d: seq<nat>, k: nat)
    requires Fits(c, live) && Fits(d, live) && AllLoaded(live) && j < |c| && k < |c| &&
             d == Zeros(j) + ([c[j] + 1] + c[j + 1..])
    ensures c[k] < |live[k]| && Loaded(live[k]) && c[j] + 1 < |live[j]|
    ensures Shown(live, d)[k] ==
            if k < j then Cut(live[k]) else if k == j then live[j][c[j] + 1] else ShownAt(live, c, k)
  {
    ShownEach(live, c, k);
    ShownEach(live, d, k);
    ShownEach(live, d, j);
    assert d[k..][0] == d[k] && live[k..][0] == live[k];
    if k < j {
      assert d[k..][1..][j - k - 1] == c[j] + 1;
    } else if k > j {
      assert d[k..] == c[k..];
    }
  }
}
