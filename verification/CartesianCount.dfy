/** How often a tuple is in the pieces of the Cartesian loop, and when that is as often as in the
    product of the whole results. */
module CartesianCount {
  import opened Intersection
  import opened IntersectMultiway
  import opened CartesianLoop

  // ----- counting tuples -----

  /** How often the tuple `x` is in the Cartesian product of the vectors. */
  function Combos(vectors: seq<seq<NodeID>>, x: seq<NodeID>): nat
    requires |vectors| == |x|
  {
    if vectors == [] then 1 else multiset(vectors[0])[x[0]] * Combos(vectors[1..], x[1..])
  }

  lemma {:induction false} CombosZero(vectors: seq<seq<NodeID>>, x: seq<NodeID>, j: nat)
    requires |vectors| == |x| && j < |x| && vectors[j] == []
    ensures Combos(vectors, x) == 0
  {
    if j > 0 { CombosZero(vectors[1..], x[1..], j - 1); }
  }

  /** How often `y` is in the vectors from number `k` on. */
  function From(chunks: Chunks, k: nat, y: NodeID): nat
    decreases |chunks| - k
  {
    if k >= |chunks| then 0 else multiset(chunks[k])[y] + From(chunks, k + 1, y)
  }

  lemma {:induction false} FromIsFlat(chunks: Chunks, k: nat, y: NodeID)
    requires k <= |chunks|
    ensures From(chunks, k, y) == multiset(Flat(chunks[k..]))[y]
    decreases |chunks| - k
  {
    if k < |chunks| {
      FromIsFlat(chunks, k + 1, y);
      assert chunks[k..][1..] == chunks[k + 1..];
      assert multiset(chunks[k] + Flat(chunks[k + 1..])) == multiset(chunks[k]) + multiset(Flat(chunks[k + 1..]));
    }
  }

  /** How often `y` is shown in a turn that begins with the cut first vector. */
  ghost function Kept(chunks: Chunks, y: NodeID): nat
    requires Loaded(chunks)
  {
    multiset(Cut(chunks))[y] + From(chunks, 1, y)
  }

  /** The last vector is as long as the first. */
  predicate Whole(chunks: Chunks)
    requires chunks != []
  {
    |Last(chunks)| == |chunks[0]|
  }

  lemma {:induction false} KeptOf(chunks: Chunks, y: NodeID)
    requires Loaded(chunks)
    ensures Kept(chunks, y) <= From(chunks, 0, y)
    ensures Whole(chunks) ==> Kept(chunks, y) == From(chunks, 0, y)
    ensures |Last(chunks)| < |chunks[0]| && y == chunks[0][|Last(chunks)|] ==> Kept(chunks, y) < From(chunks, 0, y)
  {
    var n := |Last(chunks)|;
    var lost := chunks[0][n..];
    assert chunks[0] == Cut(chunks) + lost;
    assert multiset(chunks[0]) == multiset(Cut(chunks)) + multiset(lost);
    assert n == |chunks[0]| ==> lost == [];
    assert n < |chunks[0]| && y == chunks[0][n] ==> lost[0] == y;
  }

  /** How often the tuple is in the pieces after a position, digit by digit. */
  ghost function After(live: seq<Chunks>, c: seq<nat>, x: seq<NodeID>): nat
    requires Fits(c, live) && AllLoaded(live) && |x| == |live|
    decreases |live|
  {
    if live == [] then 0
    else
      Mix(From(live[0], c[0] + 1, x[0]), Combos(Shown(live[1..], c[1..]), x[1..]),
          Kept(live[0], x[0]), After(live[1..], c[1..], x[1..]))
  }

  function Mix(f: nat, h: nat, k: nat, a: nat): nat {
    f * h + k * a
  }

  lemma {:induction false} ShownCombos(live: seq<Chunks>, c: seq<nat>, x: seq<NodeID>)
    requires Fits(c, live) && AllLoaded(live) && |x| == |live| && live != []
    ensures Combos(Shown(live, c), x) == multiset(ShownFirst(live, c))[x[0]] * Combos(Shown(live[1..], c[1..]), x[1..])
  {
    assert Shown(live, c)[1..] == Shown(live[1..], c[1..]);
  }

  lemma {:induction false} NextNotZero(c: seq<nat>, live: seq<Chunks>)
    requires |c| == |live|
    ensures Next(c, live).At? ==> Next(c, live).digits != Zeros(|c|)
  {
    if c != [] {
      NextNotZero(c[1..], live[1..]);
      var p := Next(c, live);
      assert Zeros(|c|) == [0] + Zeros(|c| - 1) && Zeros(|c|)[1..] == Zeros(|c| - 1);
      if c[0] + 1 < |live[0]| {
        assert p.digits[0] == c[0] + 1;
      } else if p.At? {
        assert p.digits[1..] == Next(c[1..], live[1..]).digits;
      }
    }
  }

  lemma {:induction false} Distribute(a: nat, b: nat, p: nat, q: nat)
    ensures a * p + (b * p + (a + b) * q) == (a + b) * (p + q)
  {
  }

  lemma {:induction false} AddFirst(m: nat, f: nat, h: nat, k: nat, a: nat)
    ensures m * h + (f * h + k * a) == (m + f) * h + k * a
  {
  }

  /** The pieces after a position are the next one and those after it. */
  lemma {:induction false} AfterNext(live: seq<Chunks>, c: seq<nat>, x: seq<NodeID>)
    requires Fits(c, live) && AllLoaded(live) && |x| == |live|
    ensures match Next(c, live)
            case Done => After(live, c, x) == 0
            case At(d) => Fits(d, live) && After(live, c, x) == Combos(Shown(live, d), x) + After(live, d, x)
    decreases |live|
  {
    if live == [] { return; }
    NextFits(c, live);
    if c[0] + 1 < |live[0]| {
      AfterInside(live, c, x);
    } else {
      AfterNext(live[1..], c[1..], x[1..]);
      if Next(c[1..], live[1..]).At? {
        NextNotZero(c[1..], live[1..]);
        AfterTurn(live, c, Next(c[1..], live[1..]).digits, x);
      }
    }
  }

  lemma {:induction false} AfterInside(live: seq<Chunks>, c: seq<nat>, x: seq<NodeID>)
    requires Fits(c, live) && AllLoaded(live) && |x| == |live| && live != [] && c[0] + 1 < |live[0]|
    ensures var d := [c[0] + 1] + c[1..];
            Fits(d, live) && After(live, c, x) == Combos(Shown(live, d), x) + After(live, d, x)
  {
    var d := [c[0] + 1] + c[1..];
    assert d[1..] == c[1..];
    ShownCombos(live, d, x);
    assert ShownFirst(live, d) == live[0][c[0] + 1];
    AddFirst(multiset(live[0][c[0] + 1])[x[0]], From(live[0], c[0] + 2, x[0]), Combos(Shown(live[1..], c[1..]), x[1..]),
             Kept(live[0], x[0]), After(live[1..], c[1..], x[1..]));
  }

  lemma {:induction false} AfterTurn(live: seq<Chunks>, c: seq<nat>, d: seq<nat>, x: seq<NodeID>)
    requires Fits(c, live) && AllLoaded(live) && |x| == |live| && live != [] && c[0] + 1 == |live[0]|
    requires Fits([0] + d, live) && Fits(d, live[1..]) && d != Zeros(|d|)
    requires After(live[1..], c[1..], x[1..]) == Combos(Shown(live[1..], d), x[1..]) + After(live[1..], d, x[1..])
    ensures After(live, c, x) == Combos(Shown(live, [0] + d), x) + After(live, [0] + d, x)
  {
    var e := [0] + d;
    assert e[1..] == d;
    ShownCombos(live, e, x);
    assert ShownFirst(live, e) == Cut(live[0]);
    var h, a := Combos(Shown(live[1..], d), x[1..]), After(live[1..], d, x[1..]);
    assert After(live, c, x) == Mix(0, Combos(Shown(live[1..], c[1..]), x[1..]), Kept(live[0], x[0]), h + a);
    assert After(live, e, x) == Mix(From(live[0], 1, x[0]), h, Kept(live[0], x[0]), a);
    Distribute(multiset(Cut(live[0]))[x[0]], From(live[0], 1, x[0]), h, a);
  }

  /** How often the tuple is in a list of pieces. */
  function Sum(pieces: seq<seq<seq<NodeID>>>, x: seq<NodeID>): nat
    requires forall p :: p in pieces ==> |p| == |x|
  {
    if pieces == [] then 0 else Combos(pieces[0], x) + Sum(pieces[1..], x)
  }

  lemma {:induction false} SumLater(live: seq<Chunks>, c: seq<nat>, x: seq<NodeID>)
    requires Fits(c, live) && AllLoaded(live) && |x| == |live|
    ensures Sum(Later(live, c), x) == After(live, c, x)
    decreases PositionsLeft(live, c)
  {
    AfterNext(live, c, x);
    PositionsFall(c, live);
    match Next(c, live)
    case Done =>
    case At(d) =>
      SumLater(live, d, x);
      assert Later(live, c)[1..] == Later(live, d);
  }

  // ----- against the product of the whole results -----

  function Flats(live: seq<Chunks>): (r: seq<seq<NodeID>>)
    ensures |r| == |live|
  {
    if live == [] then [] else [Flat(live[0])] + Flats(live[1..])
  }

  lemma {:induction false} FlatsEach(live: seq<Chunks>)
    ensures forall j :: 0 <= j < |live| ==> Flats(live)[j] == Flat(live[j])
  {
    if live != [] { FlatsEach(live[1..]); }
  }

  lemma {:induction false} SumPieces(live: seq<Chunks>, x: seq<NodeID>)
    requires AllLoaded(live) && |x| == |live|
    ensures Fits(Zeros(|live|), live)
    ensures Sum(Pieces(live), x) == Combos(Shown(live, Zeros(|live|)), x) + After(live, Zeros(|live|), x)
  {
    ZerosFit(live);
    SumLater(live, Zeros(|live|), x);
    assert Pieces(live)[1..] == Later(live, Zeros(|live|));
  }

  /** The first digit's turns: one with all of its first vector, the others with the cut one. */
  lemma {:induction false} FirstTurn(live: seq<Chunks>, x: seq<NodeID>)
    requires AllLoaded(live) && |x| == |live| && live != []
    ensures Fits(Zeros(|live|), live) && AllLoaded(live[1..]) && Fits(Zeros(|live| - 1), live[1..])
    ensures var z := Zeros(|live| - 1);
            Combos(Shown(live, Zeros(|live|)), x) + After(live, Zeros(|live|), x) ==
            From(live[0], 0, x[0]) * Combos(Shown(live[1..], z), x[1..]) +
              Kept(live[0], x[0]) * After(live[1..], z, x[1..])
  {
    var zero, z := Zeros(|live|), Zeros(|live| - 1);
    ZerosFit(live);
    assert zero[1..] == z;
    ShownCombos(live, zero, x);
    assert ShownFirst(live, zero) == live[0][0];
    AddFirst(multiset(live[0][0])[x[0]], From(live[0], 1, x[0]), Combos(Shown(live[1..], z), x[1..]),
             Kept(live[0], x[0]), After(live[1..], z, x[1..]));
  }

  lemma {:induction false} ProductOf(live: seq<Chunks>, x: seq<NodeID>)
    requires |x| == |live| && live != []
    ensures Combos(Flats(live), x) == From(live[0], 0, x[0]) * Combos(Flats(live[1..]), x[1..])
  {
    FromIsFlat(live[0], 0, x[0]);
    assert live[0][0..] == live[0] && Flats(live)[1..] == Flats(live[1..]);
  }

  lemma {:induction false} Bound(f: nat, k: nat, h: nat, a: nat, p: nat)
    requires k <= f && h + a <= p
    ensures f * h + k * a <= f * p
    ensures f > 0 && h + a < p ==> f * h + k * a < f * p
    ensures k < f && a > 0 ==> f * h + k * a < f * p
    ensures k == f && h + a == p ==> f * h + k * a == f * p
    ensures a == 0 && h + a == p ==> f * h + k * a == f * p
  {
    assert f * p == f * h + f * a + f * (p - h - a);
    assert f * a == k * a + (f - k) * a;
    assert (f - k) * a >= 0 && f * (p - h - a) >= 0;
    assert f > 0 && p - h - a > 0 ==> f * (p - h - a) > 0;
    assert f - k > 0 && a > 0 ==> (f - k) * a > 0;
  }

  /** What the first digit adds to a comparison of the others. */
  lemma {:induction false} Compare(live: seq<Chunks>, x: seq<NodeID>)
    requires AllLoaded(live) && |x| == |live| && live != [] && Fits(Zeros(|live| - 1), live[1..])
    requires Sum(Pieces(live[1..]), x[1..]) <= Combos(Flats(live[1..]), x[1..])
    ensures Sum(Pieces(live), x) <= Combos(Flats(live), x)
    ensures From(live[0], 0, x[0]) > 0 && Sum(Pieces(live[1..]), x[1..]) < Combos(Flats(live[1..]), x[1..]) ==>
              Sum(Pieces(live), x) < Combos(Flats(live), x)
    ensures Kept(live[0], x[0]) < From(live[0], 0, x[0]) && After(live[1..], Zeros(|live| - 1), x[1..]) > 0 ==>
              Sum(Pieces(live), x) < Combos(Flats(live), x)
    ensures Sum(Pieces(live[1..]), x[1..]) == Combos(Flats(live[1..]), x[1..])
            && (Whole(live[0]) || After(live[1..], Zeros(|live| - 1), x[1..]) == 0) ==>
              Sum(Pieces(live), x) == Combos(Flats(live), x)
  {
    var z := Zeros(|live| - 1);
    SumPieces(live, x);
    FirstTurn(live, x);
    SumPieces(live[1..], x[1..]);
    ProductOf(live, x);
    KeptOf(live[0], x[0]);
    Bound(From(live[0], 0, x[0]), Kept(live[0], x[0]), Combos(Shown(live[1..], z), x[1..]),
          After(live[1..], z, x[1..]), Combos(Flats(live[1..]), x[1..]));
  }

  lemma {:induction false} EmptyProduct(x: seq<NodeID>)
    requires x == []
    ensures Sum(Pieces([]), x) == Combos(Flats([]), x) == 1
  {
    assert Pieces([]) == [[]] && Pieces([])[1..] == [];
  }

  lemma {:induction false} AtMostProduct(live: seq<Chunks>, x: seq<NodeID>)
    requires AllLoaded(live) && |x| == |live|
    ensures Sum(Pieces(live), x) <= Combos(Flats(live), x)
  {
    if live == [] {
      EmptyProduct(x);
    } else {
      ZerosFit(live[1..]);
      AtMostProduct(live[1..], x[1..]);
      Compare(live, x);
    }
  }

  ghost predicate OneEach(live: seq<Chunks>, from: nat) {
    forall k :: from <= k < |live| ==> |live[k]| == 1
  }

  /** No digit that carries has a last vector shorter than its first. */
  ghost predicate NothingCut(live: seq<Chunks>)
    requires AllLoaded(live)
  {
    forall j :: 0 <= j < |live| ==> Loaded(live[j]) && (Whole(live[j]) || OneEach(live, j + 1))
  }

  lemma {:induction false} NothingCutRest(live: seq<Chunks>)
    requires AllLoaded(live) && live != []
    ensures AllLoaded(live[1..])
    ensures NothingCut(live) <==> NothingCut(live[1..]) && (Whole(live[0]) || OneEach(live[1..], 0))
  {
    var rest := live[1..];
    assert forall j :: 0 <= j < |rest| ==> rest[j] == live[j + 1];
    assert Loaded(live[0]);
    forall k | 0 <= k <= |rest| ensures OneEach(rest, k) <==> OneEach(live, k + 1) { OneEachRest(live, k); }
    if NothingCut(live) {
      forall j | 0 <= j < |rest| ensures Whole(rest[j]) || OneEach(rest, j + 1) { assert Loaded(live[j + 1]); }
    }
    if NothingCut(rest) && (Whole(live[0]) || OneEach(rest, 0)) {
      forall j | 0 <= j < |live| ensures Loaded(live[j]) && (Whole(live[j]) || OneEach(live, j + 1)) {
        if j > 0 { assert Loaded(rest[j - 1]); }
      }
    }
  }

  lemma {:induction false} OneEachRest(live: seq<Chunks>, from: nat)
    requires live != []
    ensures OneEach(live[1..], from) <==> OneEach(live, from + 1)
  {
    var rest := live[1..];
    if OneEach(rest, from) {
      forall k | from + 1 <= k < |live| ensures |live[k]| == 1 { assert live[k] == rest[k - 1]; }
    }
    if OneEach(live, from + 1) {
      forall k | from <= k < |rest| ensures |rest[k]| == 1 { assert rest[k] == live[k + 1]; }
    }
  }

  lemma {:induction false} OnePiece(live: seq<Chunks>, x: seq<NodeID>)
    requires AllLoaded(live) && |x| == |live| && OneEach(live, 0)
    ensures Fits(Zeros(|live|), live) && After(live, Zeros(|live|), x) == 0
  {
    ZerosFit(live);
    if live != [] {
      assert Zeros(|live|)[1..] == Zeros(|live| - 1);
      OneEachRest(live, 0);
      OnePiece(live[1..], x[1..]);
      assert |live[0]| == 1;
    }
  }

  lemma {:induction false} NothingLost(live: seq<Chunks>, x: seq<NodeID>)
    requires AllLoaded(live) && |x| == |live| && NothingCut(live)
    ensures Sum(Pieces(live), x) == Combos(Flats(live), x)
  {
    if live == [] {
      EmptyProduct(x);
    } else {
      ZerosFit(live[1..]);
      NothingCutRest(live);
      NothingLost(live[1..], x[1..]);
      if !Whole(live[0]) { OnePiece(live[1..], x[1..]); }
      Compare(live, x);
    }
  }

  lemma {:induction false} FromPositive(chunks: Chunks, k: nat, at: nat)
    requires k <= at < |chunks| && chunks[at] != []
    ensures From(chunks, k, chunks[at][0]) > 0
    decreases at - k
  {
    if k < at { FromPositive(chunks, k + 1, at); }
  }

  lemma {:induction false} SomeShown(live: seq<Chunks>) returns (x: seq<NodeID>)
    requires AllLoaded(live)
    ensures |x| == |live| && Fits(Zeros(|live|), live) && Combos(Shown(live, Zeros(|live|)), x) > 0
  {
    ZerosFit(live);
    x := [];
    if live != [] {
      assert Zeros(|live|)[1..] == Zeros(|live| - 1);
      var rest := SomeShown(live[1..]);
      assert Loaded(live[0]);
      x := [live[0][0][0]] + rest;
      ShownCombos(live, Zeros(|live|), x);
      assert ShownFirst(live, Zeros(|live|)) == live[0][0] && x[1..] == rest;
      Positive(multiset(live[0][0])[x[0]], Combos(Shown(live[1..], Zeros(|live| - 1)), rest));
    }
  }

  lemma {:induction false} Positive(a: nat, b: nat)
    requires a > 0 && b > 0
    ensures a * b > 0
  {
  }

  lemma {:induction false} AfterPositive(live: seq<Chunks>, x: seq<NodeID>)
    requires AllLoaded(live) && |x| == |live| && live != [] && Fits(Zeros(|live| - 1), live[1..])
    requires var z := Zeros(|live| - 1);
             || (From(live[0], 1, x[0]) > 0 && Combos(Shown(live[1..], z), x[1..]) > 0)
             || (Kept(live[0], x[0]) > 0 && After(live[1..], z, x[1..]) > 0)
    ensures Fits(Zeros(|live|), live) && After(live, Zeros(|live|), x) > 0
  {
    var z := Zeros(|live| - 1);
    ZerosFit(live);
    assert Zeros(|live|)[1..] == z;
    if From(live[0], 1, x[0]) > 0 && Combos(Shown(live[1..], z), x[1..]) > 0 {
      Positive(From(live[0], 1, x[0]), Combos(Shown(live[1..], z), x[1..]));
    } else {
      Positive(Kept(live[0], x[0]), After(live[1..], z, x[1..]));
    }
  }

  /** With a second vector somewhere there is a second piece. */
  lemma {:induction false} SomeAfter(live: seq<Chunks>) returns (x: seq<NodeID>)
    requires AllLoaded(live) && !OneEach(live, 0)
    ensures |x| == |live| && Fits(Zeros(|live|), live) && After(live, Zeros(|live|), x) > 0
  {
    ZerosFit(live[1..]);
    var rest;
    if |live[0]| > 1 {
      rest := SomeShown(live[1..]);
      x := [live[0][1][0]] + rest;
      FromPositive(live[0], 1, 1);
    } else {
      OneEachRest(live, 0);
      rest := SomeAfter(live[1..]);
      x := [live[0][0][0]] + rest;
      assert Cut(live[0]) == live[0][0];
    }
    assert x[1..] == rest;
    AfterPositive(live, x);
  }

  lemma {:induction false} SomeLost(live: seq<Chunks>) returns (x: seq<NodeID>)
    requires AllLoaded(live) && !NothingCut(live)
    ensures |x| == |live| && Sum(Pieces(live), x) < Combos(Flats(live), x)
  {
    ZerosFit(live[1..]);
    NothingCutRest(live);
    var rest;
    if NothingCut(live[1..]) {
      rest := SomeAfter(live[1..]);
      x := [live[0][0][|Last(live[0])|]] + rest;
      KeptOf(live[0], x[0]);
    } else {
      rest := SomeLost(live[1..]);
      x := [live[0][0][0]] + rest;
      FromPositive(live[0], 0, 0);
    }
    assert x[1..] == rest;
    AtMostProduct(live[1..], rest);
    Compare(live, x);
  }

  /** The loop gives out the product of the whole results exactly if no digit that carries has a last
      vector shorter than its first. */
  lemma {:induction false} NothingLostIff(live: seq<Chunks>)
    requires AllLoaded(live)
    ensures (forall x :: |x| == |live| ==> Sum(Pieces(live), x) == Combos(Flats(live), x)) <==> NothingCut(live)
  {
    if NothingCut(live) {
      forall x | |x| == |live| ensures Sum(Pieces(live), x) == Combos(Flats(live), x) { NothingLost(live, x); }
    } else {
      var x := SomeLost(live);
    }
  }

  // ----- in terms of the results and the capacity -----

  /** A result in vectors: all but the last are full. */
  function Pack(s: seq<NodeID>, capacity: nat): Chunks
    requires capacity > 0
    decreases |s|
  {
    if s == [] then [] else if |s| <= capacity then [s] else [s[..capacity]] + Pack(s[capacity..], capacity)
  }

  lemma {:induction false} PackLoaded(s: seq<NodeID>, capacity: nat)
    requires capacity > 0 && s != []
    ensures var p := Pack(s, capacity);
            && Loaded(p) && Flat(p) == s && |Last(p)| <= capacity &&
               |p[0]| == (if |s| <= capacity then |s| else capacity)
            && (|p| == 1 <==> |s| <= capacity)
            && (|Last(p)| == capacity <==> |s| % capacity == 0)
    decreases |s|
  {
    if |s| <= capacity {
      assert Flat([s]) == s + Flat([]) == s;
      SmallMod(|s|, capacity);
    } else {
      PackLoaded(s[capacity..], capacity);
      PackMore(s, capacity, Pack(s[capacity..], capacity));
      ModLess(|s|, capacity);
    }
  }

  lemma {:induction false} PackMore(s: seq<NodeID>, capacity: nat, rest: Chunks)
    requires 0 < capacity < |s| && Loaded(rest) && Flat(rest) == s[capacity..] && |Last(rest)| <= capacity
    ensures var p := [s[..capacity]] + rest; Loaded(p) && Flat(p) == s && Last(p) == Last(rest) && p[0] == s[..capacity]
  {
    var p := [s[..capacity]] + rest;
    assert p[1..] == rest && s == s[..capacity] + s[capacity..];
    forall k | 0 <= k < |p| ensures p[k] != [] { assert k > 0 ==> p[k] == rest[k - 1]; }
  }

  lemma {:induction false} SmallMod(n: nat, m: nat)
    requires 0 < n <= m
    ensures n == m <==> n % m == 0
  {
    if n == m { assert n == 1 * m; ModIs(n, m, 1, 0); } else { ModIs(n, m, 0, n); }
  }

  lemma {:induction false} MulStep(a: nat, b: nat, m: nat)
    ensures a < b ==> a * m + m <= b * m
  {
    if a < b {
      MulStep(a, b - 1, m);
      assert b * m == (b - 1) * m + m;
    }
  }

  lemma {:induction false} ModIs(n: nat, m: nat, q: nat, r: nat)
    requires m > 0 && r < m && n == q * m + r
    ensures n % m == r
  {
    MulStep(n / m, q, m);
    MulStep(q, n / m, m);
  }

  lemma {:induction false} ModLess(n: nat, m: nat)
    requires 0 < m <= n
    ensures n % m == (n - m) % m
  {
    var q, r := (n - m) / m, (n - m) % m;
    assert n == (q + 1) * m + r;
    ModIs(n, m, q + 1, r);
  }

  /** The vectors in use after an intersection are the packed result. */
  lemma {:induction false} InUseIsPack(cache: Chunks, at: nat, capacity: nat)
    requires Filled(cache, at, capacity) && capacity > 0
    ensures InUse(cache) == Pack(Flat(cache), capacity)
  {
    var rest := cache[1..];
    assert forall k :: 0 <= k < |rest| ==> rest[k] == cache[k + 1];
    if at == 0 {
      FlatEmpty(rest);
      assert rest != [] ==> rest[0] == [];
      assert InUse(rest) == [] && cache[0] + [] == cache[0];
    } else {
      InUseIsPack(rest, at - 1, capacity);
      var s := Flat(cache);
      assert s[..capacity] == cache[0] && s[capacity..] == Flat(rest);
      assert |s| == capacity ==> Flat(rest) == [] && s == cache[0];
      assert InUse(cache) == [cache[0]] + InUse(rest);
    }
  }

  function Packs(results: seq<seq<NodeID>>, capacity: nat): (live: seq<Chunks>)
    requires capacity > 0
    ensures |live| == |results|
  {
    if results == [] then [] else [Pack(results[0], capacity)] + Packs(results[1..], capacity)
  }

  lemma {:induction false} PacksLoaded(results: seq<seq<NodeID>>, capacity: nat)
    requires capacity > 0 && NoneEmpty(results)
    ensures AllLoaded(Packs(results, capacity)) && Flats(Packs(results, capacity)) == results
  {
    if results != [] {
      PackLoaded(results[0], capacity);
      PacksLoaded(results[1..], capacity);
      assert Packs(results, capacity)[1..] == Packs(results[1..], capacity);
    }
  }

  lemma {:induction false} PacksEach(results: seq<seq<NodeID>>, capacity: nat, j: nat)
    requires capacity > 0 && j < |results|
    ensures Packs(results, capacity)[j] == Pack(results[j], capacity)
  {
    if j > 0 { PacksEach(results[1..], capacity, j - 1); }
  }

  /** Each result fits one vector, or fills its vectors, or all later ones fit one vector each. */
  ghost predicate Fill(results: seq<seq<NodeID>>, capacity: nat)
    requires capacity > 0
  {
    forall j :: 0 <= j < |results| ==>
      |results[j]| <= capacity || |results[j]| % capacity == 0 || OneVectorEach(results, j + 1, capacity)
  }

  ghost predicate OneVectorEach(results: seq<seq<NodeID>>, from: nat, capacity: nat) {
    forall k :: from <= k < |results| ==> |results[k]| <= capacity
  }

  lemma {:induction false} NothingCutIsFill(results: seq<seq<NodeID>>, capacity: nat)
    requires capacity > 0 && NoneEmpty(results)
    ensures AllLoaded(Packs(results, capacity))
    ensures NothingCut(Packs(results, capacity)) <==> Fill(results, capacity)
  {
    var live := Packs(results, capacity);
    PacksLoaded(results, capacity);
    forall j | 0 <= j < |results|
      ensures Loaded(live[j]) && (|live[j]| == 1 <==> |results[j]| <= capacity)
      ensures Whole(live[j]) <==> |results[j]| <= capacity || |results[j]| % capacity == 0
    {
      PacksEach(results, capacity, j);
      PackLoaded(results[j], capacity);
    }
    forall k | 0 <= k <= |results| ensures OneEach(live, k) <==> OneVectorEach(results, k, capacity) {
      assert OneEach(live, k) <==> forall i :: k <= i < |results| ==> |live[i]| == 1;
    }
  }

  /** For the results of a row: no tuple is lost exactly if every result fits one vector, or fills its
      vectors, or is followed only by results that fit one vector. */
  lemma {:induction false} PiecesAreProductIff(results: seq<seq<NodeID>>, capacity: nat)
    requires capacity > 0 && NoneEmpty(results)
    ensures AllLoaded(Packs(results, capacity))
    ensures (forall x :: |x| == |results| ==> Sum(Pieces(Packs(results, capacity)), x) == Combos(results, x)) <==>
            Fill(results, capacity)
  {
    PacksLoaded(results, capacity);
    NothingCutIsFill(results, capacity);
    NothingLostIff(Packs(results, capacity));
  }

  /** The number of tuples a list of pieces stands for. */
  function Tuples(pieces: seq<seq<seq<NodeID>>>): nat {
    if pieces == [] then 0 else Volume(pieces[0]) + Tuples(pieces[1..])
  }

  function Volume(vectors: seq<seq<NodeID>>): nat {
    if vectors == [] then 1 else |vectors[0]| * Volume(vectors[1..])
  }

  /** Two results of one id more than a vector holds: the third piece has one tuple where as many are
      due as a vector holds. */
  lemma {:induction false} CarryLosesTuples(a: seq<NodeID>, b: seq<NodeID>, capacity: nat)
    requires capacity > 1 && |a| == |b| == capacity + 1
    ensures AllLoaded(Packs([a, b], capacity))
    ensures var pieces := Pieces(Packs([a, b], capacity));
            && pieces == [[a[..capacity], b[..capacity]], [a[capacity..], b[..capacity]], [a[..1], b[capacity..]],
                          [a[capacity..], b[capacity..]]]
            && Tuples(pieces) == |a| * |b| - (capacity - 1)
  {
    TwoByTwo(a, b, capacity);
    FourVolumes(a[..capacity], a[capacity..], a[..1], b[..capacity], b[capacity..]);
    SquareOfNext(capacity);
  }

  lemma {:induction false} SquareOfNext(n: nat)
    ensures n * n + 1 * n + 1 * 1 + 1 * 1 == (n + 1) * (n + 1) - (n - 1)
  {
  }

  lemma {:induction false} TwoByTwo(a: seq<NodeID>, b: seq<NodeID>, capacity: nat)
    requires capacity > 1 && |a| == |b| == capacity + 1
    ensures AllLoaded(Packs([a, b], capacity))
    ensures Pieces(Packs([a, b], capacity)) ==
            [[a[..capacity], b[..capacity]], [a[capacity..], b[..capacity]], [a[..1], b[capacity..]],
             [a[capacity..], b[capacity..]]]
  {
    var p, q := [a[..capacity], a[capacity..]], [b[..capacity], b[capacity..]];
    PacksLoaded([a, b], capacity);
    TwoVectors(a, capacity);
    TwoVectors(b, capacity);
    assert [a, b][1..] == [b] && [b][1..] == [];
    assert Packs([b], capacity) == [q] && Packs([a, b], capacity) == [p, q];
    ZerosFit([p, q]);
    assert Zeros(2) == [0, 0];
    FourSteps(p, q);
    assert Cut(p) == a[..1];
  }

  lemma {:induction false} TwoVectors(a: seq<NodeID>, capacity: nat)
    requires capacity > 1 && |a| == capacity + 1
    ensures Pack(a, capacity) == [a[..capacity], a[capacity..]]
  {
    assert Pack(a[capacity..], capacity) == [a[capacity..]];
  }

  /** The pieces of two digits with two vectors each. */
  lemma {:induction false} FourSteps(p: Chunks, q: Chunks)
    requires |p| == |q| == 2 && AllLoaded([p, q]) && Fits([0, 0], [p, q])
    ensures [Shown([p, q], [0, 0])] + Later([p, q], [0, 0]) ==
            [[p[0], q[0]], [p[1], q[0]], [Cut(p), q[1]], [p[1], q[1]]]
  {
    var live := [p, q];
    StepTo(p, q, 0, 0);
    StepTo(p, q, 1, 0);
    StepTo(p, q, 0, 1);
    StepTo(p, q, 1, 1);
    assert Later(live, [1, 1]) == [];
    assert Later(live, [0, 1]) == [[p[1], q[1]]];
    assert Later(live, [1, 0]) == [[Cut(p), q[1]], [p[1], q[1]]];
    assert Later(live, [0, 0]) == [[p[1], q[0]], [Cut(p), q[1]], [p[1], q[1]]];
  }

  lemma {:induction false} StepTo(p: Chunks, q: Chunks, i: nat, j: nat)
    requires |p| == |q| == 2 && AllLoaded([p, q]) && i < 2 && j < 2
    ensures Fits([i, j], [p, q]) && Shown([p, q], [i, j]) == [if i == 0 && j == 1 then Cut(p) else p[i], q[j]]
    ensures Next([i, j], [p, q]) == if i == 0 then At([1, j]) else if j == 0 then At([0, 1]) else Done
  {
    var live, c := [p, q], [i, j];
    assert live[1..] == [q] && c[1..] == [j] && [q][1..] == [] && [j][1..] == [];
    assert Zeros(1) == [0];
    assert Next([j], [q]) == if j == 0 then At([1]) else Done;
    assert Shown([q], [j]) == [q[j]];
  }

  lemma {:induction false} FourVolumes(a: seq<NodeID>, a': seq<NodeID>, cut: seq<NodeID>, b: seq<NodeID>,
                                       b': seq<NodeID>)
    ensures Tuples([[a, b], [a', b], [cut, b'], [a', b']]) == |a| * |b| + |a'| * |b| + |cut| * |b'| + |a'| * |b'|
  {
    VolumeOfTwo(a, b);
    VolumeOfTwo(a', b);
    VolumeOfTwo(cut, b');
    VolumeOfTwo(a', b');
    TuplesCons([a', b'], []);
    TuplesCons([cut, b'], [[a', b']]);
    TuplesCons([a', b], [[cut, b'], [a', b']]);
    TuplesCons([a, b], [[a', b], [cut, b'], [a', b']]);
    assert [[a, b]] + [[a', b], [cut, b'], [a', b']] == [[a, b], [a', b], [cut, b'], [a', b']];
  }

  lemma {:induction false} TuplesCons(piece: seq<seq<NodeID>>, pieces: seq<seq<seq<NodeID>>>)
    ensures Tuples([piece] + pieces) == Volume(piece) + Tuples(pieces)
  {
    assert ([piece] + pieces)[1..] == pieces;
  }

  lemma {:induction false} VolumeOfTwo(a: seq<NodeID>, b: seq<NodeID>)
    ensures Volume([a, b]) == |a| * |b|
  {
    assert [a, b][1..] == [b] && [b][1..] == [];
    assert Volume([b]) == |b| * 1;
  }
}
