/** The multiway intersect operator: for every probe row it probes all hash tables, intersects the
    lists of every output node, and gives out the Cartesian product of the results piece by piece. */
module IntersectOperator {
  import opened Intersection
  import opened IntersectMultiway
  import opened CartesianLoop
  import opened CartesianCount
  import opened IntersectProbe
  import opened IntersectRow

  // ----- the order in which output nodes are intersected -----

  /** All indices below `n`, in some order. */
  ghost predicate Permutation(order: seq<nat>, n: nat) {
    && |order| == n
    && (forall p :: 0 <= p < |order| ==> order[p] < n)
    && (forall j :: 0 <= j < n ==> j in order)
  }

  ghost predicate Ascends(cards: seq<nat>, order: seq<nat>) {
    && (forall p :: 0 <= p < |order| ==> order[p] < |cards|)
    && (forall p, q :: 0 <= p < q < |order| ==> cards[order[p]] <= cards[order[q]])
  }

  lemma {:induction false} PermutationInsert(order: seq<nat>, n: nat, k: nat)
    requires Permutation(order, n) && k <= n
    ensures Permutation(order[..k] + [n] + order[k..], n + 1)
  {
    var after := order[..k] + [n] + order[k..];
    assert after[k] == n;
    forall j | 0 <= j < n ensures j in after {
      assert j in order;
      var p :| 0 <= p < |order| && order[p] == j;
      assert after[if p < k then p else p + 1] == j;
    }
  }

  lemma {:induction false} Inserted(cards: seq<nat>, order: seq<nat>, n: nat, k: nat)
    requires Ascends(cards, order) && n < |cards| && k <= |order|
    requires k > 0 ==> cards[order[k - 1]] <= cards[n]
    requires forall p :: k <= p < |order| ==> cards[n] < cards[order[p]]
    ensures Ascends(cards, order[..k] + [n] + order[k..])
  {
    forall p | 0 <= p < k ensures cards[order[p]] <= cards[n] {
      assert p < k - 1 ==> cards[order[p]] <= cards[order[k - 1]];
    }
  }

  /** Indices by ascending cardinality product. */
  method OrderByCardinality(cards: seq<nat>) returns (order: seq<nat>)
    ensures Permutation(order, |cards|) && Ascends(cards, order)
  {
    order := [];
    var n := 0;
    while n < |cards|
      invariant 0 <= n <= |cards| && Permutation(order, n) && Ascends(cards, order)
    {
      var k := n;
      while k > 0 && cards[n] < cards[order[k - 1]]
        invariant 0 <= k <= n
        invariant forall p :: k <= p < n ==> cards[n] < cards[order[p]]
      {
        k := k - 1;
      }
      PermutationInsert(order, n, k);
      Inserted(cards, order, n, k);
      order := order[..k] + [n] + order[k..];
      n := n + 1;
    }
  }

  method SortAll(sort: Sort, chunks: Chunks) returns (sorted: Chunks)
    ensures sorted == SortChunks(sort, chunks)
  {
    sorted := [];
    var k := 0;
    assert chunks[0..] == chunks;
    while k < |chunks|
      invariant 0 <= k <= |chunks|
      invariant sorted + SortChunks(sort, chunks[k..]) == SortChunks(sort, chunks)
    {
      assert chunks[k..][1..] == chunks[k + 1..];
      sorted := sorted + [sort(chunks[k])];
      k := k + 1;
    }
    assert sorted + [] == sorted;
  }

  method SortEach(sort: Sort, lists: seq<Chunks>) returns (sorted: seq<Chunks>)
    ensures |sorted| == |lists| && forall q :: 0 <= q < |lists| ==> sorted[q] == SortChunks(sort, lists[q])
  {
    sorted := [];
    var k := 0;
    while k < |lists|
      invariant 0 <= k <= |lists| && |sorted| == k && forall q :: 0 <= q < k ==> sorted[q] == SortChunks(sort, lists[q])
    {
      var next := SortAll(sort, lists[k]);
      sorted := sorted + [next];
      k := k + 1;
    }
  }

  /** One call's output: the probe row and a vector per output node, standing for their product. */
  datatype Output = Output(row: Row, vectors: seq<seq<NodeID>>)

  ghost function Tag(row: Row, pieces: seq<seq<seq<NodeID>>>): seq<Output> {
    seq(|pieces|, k requires 0 <= k < |pieces| => Output(row, pieces[k]))
  }

  /** What is given out for a row: the pieces of its results, in vectors of the given capacity. */
  ghost function RowPieces(join: Join, row: Row, capacity: nat): seq<Output>
    requires join.Valid() && |row| == |join.tables| && capacity > 0
  {
    if join.AllFound(row) && NoneEmpty(join.Results(row)) then
      PacksLoaded(join.Results(row), capacity);
      Tag(row, Pieces(Packs(join.Results(row), capacity)))
    else []
  }

  ghost function RowsPieces(join: Join, rows: seq<Row>, capacity: nat): seq<Output>
    requires join.Valid() && capacity > 0 && forall r :: r in rows ==> |r| == |join.tables|
  {
    if rows == [] then [] else RowPieces(join, rows[0], capacity) + RowsPieces(join, rows[1..], capacity)
  }

  class Operator {
    const join: Join
    const capacity: nat
    const dynamicOrder: bool
    /** The probe rows the child has still to deliver. */
    var rows: seq<Row>
    var row: Row
    var caches: seq<Chunks>
    const loop: LoopState
    /** What is still to be given out of the current row, and what of the rows after it. */
    ghost var pending: seq<Output>
    ghost var later: seq<Output>

    constructor (join: Join, capacity: nat, dynamicOrder: bool, rows: seq<Row>)
      requires join.Valid() && capacity > 0 && forall r :: r in rows ==> |r| == |join.tables|
      ensures Valid() && pending == [] && later == RowsPieces(join, rows, capacity) && fresh(loop)
    {
      this.join, this.capacity, this.dynamicOrder, this.rows := join, capacity, dynamicOrder, rows;
      row, caches := seq(|join.tables|, _ => NodeID(0, 0)), seq(join.outputs, _ => [[]]);
      loop := new LoopState(join.outputs);
      pending, later := [], RowsPieces(join, rows, capacity);
    }

    ghost predicate Valid()
      reads this, loop
    {
      && join.Valid() && capacity > 0
      && (forall r :: r in rows ==> |r| == |join.tables|)
      && |loop.cursors| == |loop.out| == |loop.shared| == |caches| == join.outputs
      && (forall j :: 0 <= j < |caches| ==> |caches[j]| > 0)
      && (!loop.finished ==> loop.Shows(AllInUse(caches)))
      && pending == (if loop.finished then [] else Tag(row, Later(AllInUse(caches), loop.cursors)))
      && later == RowsPieces(join, rows, capacity)
    }

    /** Probes one table with a row's key. */
    method ProbeOne(r: Row, i: nat) returns (found: bool, lists: seq<Chunks>)
      requires join.Valid() && |r| == |join.tables| && i < |r|
      ensures found <==> TableFound(join, r, i)
      ensures found ==> TableHolds(join, r, i, lists)
    {
      var js := Connected(join.connectivity[i]);
      found, lists := ProbeHT(join.tables[i], r[i], js, join.outputs);
      assert forall j :: 0 <= j < join.outputs && join.connectivity[i][j] <==> j in js;
    }

    /** Probes all tables with a row. */
    method ProbeHTs(r: Row) returns (found: bool, probed: seq<seq<Chunks>>)
      requires join.Valid() && |r| == |join.tables|
      ensures found <==> join.AllFound(r)
      ensures found ==> Holds(join, r, probed)
    {
      probed := [];
      var i := 0;
      while i < |r|
        invariant 0 <= i <= |r| && |probed| == i
        invariant forall k :: 0 <= k < i ==> TableFound(join, r, k) && TableHolds(join, r, k, probed[k])
      {
        var ok, lists := ProbeOne(r, i);
        if !ok {
          NotAllTables(join, r, i);
          return false, probed;
        }
        probed := probed + [lists];
        i := i + 1;
      }
      AllTables(join, r, probed);
      found := true;
    }

    /** The sorted lists of one output node. */
    method SortedLists(r: Row, probed: seq<seq<Chunks>>, j: nat) returns (lists: seq<Chunks>)
      requires join.Valid() && |r| == |join.tables| && j < join.outputs && Holds(join, r, probed)
      ensures lists == join.Inputs(r, j)
    {
      ListsForFound(join, r, j, probed);
      lists := SortEach(join.sort, ListsFor(join, probed, j));
      InputsAre(join, r, j, lists);
    }

    method Cardinalities(probed: seq<seq<Chunks>>) returns (cards: seq<nat>)
      requires join.Valid() && PerTable(join, probed)
      ensures |cards| == join.outputs && forall j :: 0 <= j < |cards| ==> cards[j] == Cardinality(join, probed, j)
    {
      cards := [];
      while |cards| < join.outputs
        invariant |cards| <= join.outputs && forall j :: 0 <= j < |cards| ==> cards[j] == Cardinality(join, probed, j)
        decreases join.outputs - |cards|
      {
        var product := SizeProduct(ListsFor(join, probed, |cards|));
        cards := cards + [product];
      }
    }

    /** By ascending product of the list sizes, or as numbered. */
    method ChooseOrder(probed: seq<seq<Chunks>>) returns (order: seq<nat>)
      requires join.Valid() && PerTable(join, probed)
      ensures Permutation(order, join.outputs)
      ensures dynamicOrder ==> forall p, q :: 0 <= p < q < |order| ==>
                Cardinality(join, probed, order[p]) <= Cardinality(join, probed, order[q])
      ensures !dynamicOrder ==> forall p :: 0 <= p < |order| ==> order[p] == p
    {
      order := seq(join.outputs, j => j);
      if dynamicOrder {
        var cards := Cardinalities(probed);
        order := OrderByCardinality(cards);
      } else {
        forall j | 0 <= j < join.outputs ensures j in order { assert order[j] == j; }
      }
    }

    method IntersectOne(r: Row, probed: seq<seq<Chunks>>, j: nat, slots: nat, ghost results: seq<seq<NodeID>>)
      returns (cache: Chunks, empty: bool)
      requires join.Valid() && capacity > 0 && Probes(join, r, probed, results) && j < join.outputs && slots > 0
      ensures |cache| > 0 && (empty <==> results[j] == []) &&
              (!empty ==> Computed(cache, |cache[0]|, results[j], capacity))
    {
      var lists := SortedLists(r, probed, j);
      join.InputsProbed(r, j);
      cache, empty := MultiwayIntersect(lists, slots, capacity);
    }

    /** Intersects the lists of the output nodes in the given order, up to the first empty result. An
        intersection leaves the size of its first vector as the shared size. */
    method IntersectAll(r: Row, probed: seq<seq<Chunks>>, order: seq<nat>, before: seq<Chunks>, sizes: seq<nat>,
                        ghost results: seq<seq<NodeID>>)
      returns (hasEmpty: bool, after: seq<Chunks>, shared: seq<nat>)
      requires join.Valid() && capacity > 0 && Probes(join, r, probed, results) && Permutation(order, join.outputs)
      requires |before| == |sizes| == join.outputs && forall j :: 0 <= j < |before| ==> |before[j]| > 0
      ensures |after| == |shared| == join.outputs && forall j :: 0 <= j < |after| ==> |after[j]| > 0
      ensures hasEmpty <==> !NoneEmpty(results)
      ensures !hasEmpty ==> AllComputed(after, shared, results, capacity)
    {
      after, shared, hasEmpty := before, sizes, false;
      var k := 0;
      while k < |order|
        invariant 0 <= k <= |order| && |after| == |shared| == join.outputs
        invariant forall j :: 0 <= j < |after| ==> |after[j]| > 0
        invariant Settled(after, shared, results, order, k, capacity) && !hasEmpty
      {
        var j := order[k];
        var cache, empty := IntersectOne(r, probed, j, |after[j]|, results);
        if !empty { SettleNext(after, shared, results, order, k, capacity, cache); }
        after, shared := after[j := cache], shared[j := |cache[0]|];
        if empty { return true, after, shared; }
        k := k + 1;
      }
      AllSettled(after, shared, results, order, capacity);
    }

    /** The next row for which every connected pair finds a list. */
    method FetchRow(from: seq<Row>, last: Row) returns (ok: bool, r: Row, rest: seq<Row>, probed: seq<seq<Chunks>>)
      requires join.Valid() && capacity > 0 && forall k :: k in from ==> |k| == |join.tables|
      ensures |rest| <= |from| && (forall k :: k in rest ==> |k| == |join.tables|)
      ensures ok ==> |rest| < |from| && Fetched(join, r, probed)
      ensures ok ==> RowsPieces(join, from, capacity) == RowPieces(join, r, capacity) + RowsPieces(join, rest, capacity)
      ensures !ok ==> rest == [] && RowsPieces(join, from, capacity) == []
    {
      ok, r, rest, probed := false, last, from, [];
      while |rest| > 0
        invariant |rest| <= |from| && (forall k :: k in rest ==> |k| == |join.tables|)
        invariant RowsPieces(join, rest, capacity) == RowsPieces(join, from, capacity) && !ok
        decreases |rest|
      {
        FirstRow(join, rest, capacity);
        r, rest := rest[0], rest[1..];
        ok, probed := ProbeHTs(r);
        if ok { return; }
      }
    }

    method NextRow() returns (ok: bool, probed: seq<seq<Chunks>>)
      requires Valid() && loop.finished
      modifies this`rows, this`row, this`later
      ensures Valid() && |rows| <= old(|rows|)
      ensures ok ==> |rows| < old(|rows|) && Fetched(join, row, probed)
      ensures ok ==> old(later) == RowPieces(join, row, capacity) + later
      ensures !ok ==> old(later) == []
    {
      var r, rest;
      ok, r, rest, probed := FetchRow(rows, row);
      row, rows, later := r, rest, RowsPieces(join, rest, capacity);
    }

    /** Gets the loop to the start of a row's results. */
    method StartRow(ghost results: seq<seq<NodeID>>)
      requires Valid() && AllComputed(caches, loop.shared, results, capacity)
      requires |row| == |join.tables| && join.AllFound(row) && results == join.Results(row)
      modifies loop, this`pending
      ensures Valid() && !loop.finished
      ensures RowPieces(join, row, capacity) == [Output(row, loop.out)] + pending
    {
      LiveIsPacks(results, caches, loop.shared, capacity);
      loop.Reset(caches);
      pending := Tag(row, Later(AllInUse(caches), loop.cursors));
      TagFirst(row, loop.out, Later(AllInUse(caches), loop.cursors));
    }

    /** One position further within a row. */
    method Advance()
      requires Valid() && !loop.finished
      modifies loop, this`pending
      ensures Valid()
      ensures old(pending) == if loop.finished then [] else [Output(row, loop.out)] + pending
    {
      ghost var live, c := AllInUse(caches), loop.cursors;
      loop.GotoNext(caches);
      if loop.finished {
        assert Later(live, c) == [];
        pending := [];
      } else {
        ghost var rest := Later(live, loop.cursors);
        assert Later(live, c) == [loop.out] + rest;
        TagFirst(row, loop.out, rest);
        pending := Tag(row, rest);
      }
    }

    /** All intersections of a row, in the chosen order. */
    method ComputeRow(probed: seq<seq<Chunks>>, ghost results: seq<seq<NodeID>>) returns (hasEmpty: bool)
      requires Valid() && loop.finished && Probes(join, row, probed, results)
      modifies this`caches, loop`shared
      ensures Valid()
      ensures hasEmpty ==> RowPieces(join, row, capacity) == []
      ensures !hasEmpty ==> AllComputed(caches, loop.shared, results, capacity)
    {
      var order := ChooseOrder(probed);
      hasEmpty, caches, loop.shared := IntersectAll(row, probed, order, caches, loop.shared, results);
    }

    /** A row, at the start of its results if it has any. */
    method ShowRow(probed: seq<seq<Chunks>>)
      requires Valid() && loop.finished && |row| == |join.tables| && join.AllFound(row) && Holds(join, row, probed)
      modifies this`caches, this`pending, loop
      ensures Valid()
      ensures RowPieces(join, row, capacity) == if loop.finished then [] else [Output(row, loop.out)] + pending
    {
      ghost var results := join.Results(row);
      var hasEmpty := ComputeRow(probed, results);
      if !hasEmpty {
        StartRow(results);
      }
    }

    /** The next row, at the start of its results if it has any. */
    method TryRow() returns (more: bool)
      requires Valid() && loop.finished
      modifies this`rows, this`row, this`caches, this`pending, this`later, loop
      ensures Valid() && |rows| <= old(|rows|) && (more ==> |rows| < old(|rows|)) && (!more ==> loop.finished)
      ensures old(later) ==
              if !more then [] else if loop.finished then later else [Output(row, loop.out)] + (pending + later)
    {
      var probed;
      more, probed := NextRow();
      if !more { return; }
      ShowRow(probed);
      Regroup([Output(row, loop.out)], pending, later);
      NothingBefore(later);
    }

    /** The first row from here on with results, at the start of them. */
    method FillRow() returns (more: bool)
      requires Valid() && loop.finished
      modifies this`rows, this`row, this`caches, this`pending, this`later, loop
      ensures Valid() && (more <==> !loop.finished)
      ensures old(later) == if more then [Output(row, loop.out)] + (pending + later) else []
    {
      more := true;
      while loop.finished && more
        invariant Valid() && (!loop.finished ==> more)
        invariant old(later) ==
                  if !more then [] else if loop.finished then later else [Output(row, loop.out)] + (pending + later)
        decreases loop.finished && more, |rows|
      {
        more := TryRow();
      }
    }

    /** The next piece of output, and what is then left, are what was left. */
    method GetNextTuples() returns (more: bool)
      requires Valid()
      modifies this`rows, this`row, this`caches, this`pending, this`later, loop
      ensures Valid() && (more <==> !loop.finished)
      ensures old(pending + later) == if more then [Output(row, loop.out)] + (pending + later) else []
    {
      if !loop.finished {
        Advance();
        if !loop.finished {
          Regroup([Output(row, loop.out)], pending, later);
          return true;
        }
      }
      NothingBefore(later);
      more := FillRow();
    }

    /** Calls until nothing is left: the outputs are all that was left, in order. */
    method Drain() returns (outputs: seq<Output>)
      requires Valid()
      modifies this`rows, this`row, this`caches, this`pending, this`later, loop
      ensures outputs == old(pending + later)
    {
      outputs := [];
      var more := true;
      ghost var left := pending + later;
      NothingBefore(left);
      while more
        invariant Valid() && outputs + left == old(pending + later) && left == if more then pending + later else []
        decreases more, |left|
      {
        more := GetNextTuples();
        if more {
          Regroup(outputs, [Output(row, loop.out)], pending + later);
          outputs := outputs + [Output(row, loop.out)];
        }
        left := if more then pending + later else [];
      }
    }
  }

  lemma {:induction false} Regroup<T>(a: seq<T>, b: seq<T>, c: seq<T>)
    ensures a + b + c == a + (b + c)
  {
  }

  lemma {:induction false} NothingBefore<T>(a: seq<T>)
    ensures [] + a == a
  {
  }

  lemma {:induction false} FirstRow(join: Join, rows: seq<Row>, capacity: nat)
    requires join.Valid() && capacity > 0 && rows != [] && forall r :: r in rows ==> |r| == |join.tables|
    ensures RowsPieces(join, rows, capacity) ==
            RowPieces(join, rows[0], capacity) + RowsPieces(join, rows[1..], capacity)
    ensures !join.AllFound(rows[0]) ==> RowsPieces(join, rows, capacity) == RowsPieces(join, rows[1..], capacity)
  {
    NothingBefore(RowsPieces(join, rows[1..], capacity));
  }

  /** The operator over all its rows: the outputs are the pieces of the rows, one row after the other. */
  method RunOperator(join: Join, capacity: nat, dynamicOrder: bool, rows: seq<Row>) returns (outputs: seq<Output>)
    requires join.Valid() && capacity > 0 && forall r :: r in rows ==> |r| == |join.tables|
    ensures outputs == RowsPieces(join, rows, capacity)
  {
    var operator := new Operator(join, capacity, dynamicOrder, rows);
    outputs := operator.Drain();
    NothingBefore(RowsPieces(join, rows, capacity));
  }

  lemma {:induction false} TagFirst(row: Row, piece: seq<seq<NodeID>>, pieces: seq<seq<seq<NodeID>>>)
    ensures Tag(row, [piece] + pieces) == [Output(row, piece)] + Tag(row, pieces)
  {
  }

  lemma {:induction false} LiveIsPacks(results: seq<seq<NodeID>>, caches: seq<Chunks>, shared: seq<nat>, capacity: nat)
    requires AllComputed(caches, shared, results, capacity) && capacity > 0
    ensures NoneEmpty(results) && AllInUse(caches) == Packs(results, capacity) && AllLoaded(AllInUse(caches))
    ensures forall j :: 0 <= j < |caches| ==> |caches[j]| > 0 && shared[j] == |caches[j][0]|
  {
    forall j | 0 <= j < |caches| ensures InUse(caches[j]) == Packs(results, capacity)[j] {
      var at :| Filled(caches[j], at, capacity);
      InUseIsPack(caches[j], at, capacity);
      PacksEach(results, capacity, j);
    }
    PacksLoaded(results, capacity);
  }

  // ----- cardinalities -----

  /** One list of lists per table and output node. */
  ghost predicate PerTable(join: Join, probed: seq<seq<Chunks>>) {
    |probed| == |join.tables| && forall i :: 0 <= i < |probed| ==> |probed[i]| == join.outputs
  }

  function ListsFor(join: Join, probed: seq<seq<Chunks>>, j: nat): seq<Chunks>
    requires join.Valid() && PerTable(join, probed) && j < join.outputs
  {
    var ps := Connected(join.Column(j));
    assert forall q :: 0 <= q < |ps| ==> ps[q] in ps;
    seq(|ps|, q requires 0 <= q < |ps| => probed[ps[q]][j])
  }

  /** The number of ways to take one id from each list. */
  function Sizes(lists: seq<Chunks>): nat {
    if lists == [] then 1 else Sizes(lists[..|lists| - 1]) * |Flat(lists[|lists| - 1])|
  }

  function Cardinality(join: Join, probed: seq<seq<Chunks>>, j: nat): nat
    requires join.Valid() && PerTable(join, probed) && j < join.outputs
  {
    Sizes(ListsFor(join, probed, j))
  }

  method SizeProduct(lists: seq<Chunks>) returns (product: nat)
    ensures product == Sizes(lists)
  {
    product := 1;
    var k := 0;
    while k < |lists|
      invariant 0 <= k <= |lists| && product == Sizes(lists[..k])
    {
      assert lists[..k + 1][..k] == lists[..k];
      product := product * |Flat(lists[k])|;
      k := k + 1;
    }
    assert lists[..k] == lists;
  }

  // ----- what probing finds -----

  /** The table has a list for every output node it is connected to. */
  ghost predicate TableFound(join: Join, r: Row, i: nat)
    requires join.Valid() && |r| == |join.tables| && i < |r|
  {
    forall j :: 0 <= j < join.outputs && join.connectivity[i][j] ==> join.Found(r, i, j) != []
  }

  ghost predicate TableHolds(join: Join, r: Row, i: nat, lists: seq<Chunks>)
    requires join.Valid() && |r| == |join.tables| && i < |r|
  {
    |lists| == join.outputs &&
      forall j :: 0 <= j < join.outputs && join.connectivity[i][j] ==> lists[j] == join.Found(r, i, j)
  }

  /** A row with lists for all connected pairs, and what probing gives for it. */
  ghost predicate Fetched(join: Join, r: Row, probed: seq<seq<Chunks>>)
    requires join.Valid()
  {
    |r| == |join.tables| && join.AllFound(r) && Holds(join, r, probed)
  }

  /** What probing gives for the connected pairs. */
  ghost predicate Holds(join: Join, r: Row, probed: seq<seq<Chunks>>)
    requires join.Valid() && |r| == |join.tables|
  {
    && |probed| == |r|
    && (forall i :: 0 <= i < |r| ==> |probed[i]| == join.outputs)
    && (forall i, j :: 0 <= i < |r| && 0 <= j < join.outputs && join.connectivity[i][j] ==>
        probed[i][j] == join.Found(r, i, j))
  }

  lemma {:induction false} AllTables(join: Join, r: Row, probed: seq<seq<Chunks>>)
    requires join.Valid() && |r| == |join.tables| == |probed|
    requires forall k :: 0 <= k < |r| ==> TableFound(join, r, k) && TableHolds(join, r, k, probed[k])
    ensures join.AllFound(r) && Holds(join, r, probed)
  {
    forall k, j | 0 <= k < |r| && 0 <= j < join.outputs && join.connectivity[k][j]
      ensures join.Found(r, k, j) != [] && probed[k][j] == join.Found(r, k, j)
    {
      assert TableFound(join, r, k) && TableHolds(join, r, k, probed[k]);
    }
  }

  lemma {:induction false} NotAllTables(join: Join, r: Row, i: nat)
    requires join.Valid() && |r| == |join.tables| && i < |r| && !TableFound(join, r, i)
    ensures !join.AllFound(r)
  {
    var j :| 0 <= j < join.outputs && join.connectivity[i][j] && join.Found(r, i, j) == [];
    assert join.connectivity[i][j];
  }

  /** The lists of an output node are those found for its connected probe nodes. */
  lemma {:induction false} ListsForFound(join: Join, r: Row, j: nat, probed: seq<seq<Chunks>>)
    requires join.Valid() && |r| == |join.tables| && j < join.outputs && Holds(join, r, probed)
    ensures var ps, lists := Connected(join.Column(j)), ListsFor(join, probed, j);
            |lists| == |ps| && forall q :: 0 <= q < |ps| ==> ps[q] < |r| && lists[q] == join.Found(r, ps[q], j)
  {
    var ps := Connected(join.Column(j));
    forall q | 0 <= q < |ps| ensures ps[q] < |r| && join.connectivity[ps[q]][j] { assert ps[q] in ps; }
  }

  lemma {:induction false} InputsAre(join: Join, r: Row, j: nat, lists: seq<Chunks>)
    requires join.Valid() && |r| == |join.tables| && j < join.outputs
    requires var ps := Connected(join.Column(j));
             |lists| == |ps| && forall q :: 0 <= q < |ps| ==>
                 ps[q] < |r| && lists[q] == SortChunks(join.sort, join.Found(r, ps[q], j))
    ensures lists == join.Inputs(r, j)
  {
  }

  /** A row for which all lists are found, and its results. */
  ghost predicate Probes(join: Join, r: Row, probed: seq<seq<Chunks>>, results: seq<seq<NodeID>>)
    requires join.Valid()
  {
    |r| == |join.tables| && join.AllFound(r) && Holds(join, r, probed) && results == join.Results(r)
  }

  /** The nodes before position `k` of the order have their non-empty results. */
  ghost predicate Settled(caches: seq<Chunks>, shared: seq<nat>, results: seq<seq<NodeID>>, order: seq<nat>, k: nat,
                          capacity: nat) {
    && |caches| == |results| == |shared|
    && (forall q :: 0 <= q < k && q < |order| ==>
          order[q] < |caches| && Computed(caches[order[q]], shared[order[q]], results[order[q]], capacity))
  }

  lemma {:induction false} SettleNext(caches: seq<Chunks>, shared: seq<nat>, results: seq<seq<NodeID>>,
                                      order: seq<nat>, k: nat,
                                      capacity: nat, cache: Chunks)
    requires Settled(caches, shared, results, order, k, capacity) && k < |order| && order[k] < |caches|
    requires cache != [] && Computed(cache, |cache[0]|, results[order[k]], capacity)
    ensures Settled(caches[order[k] := cache], shared[order[k] := |cache[0]|], results, order, k + 1, capacity)
  {
  }

  ghost predicate AllComputed(caches: seq<Chunks>, shared: seq<nat>, results: seq<seq<NodeID>>, capacity: nat) {
    |caches| == |shared| == |results| &&
      forall j :: 0 <= j < |caches| ==> Computed(caches[j], shared[j], results[j], capacity)
  }

  lemma {:induction false} AllSettled(caches: seq<Chunks>, shared: seq<nat>, results: seq<seq<NodeID>>,
                                      order: seq<nat>, capacity: nat)
    requires Settled(caches, shared, results, order, |order|, capacity) && Permutation(order, |caches|)
    ensures AllComputed(caches, shared, results, capacity)
    ensures !exists j :: 0 <= j < |results| && results[j] == []
  {
    forall j | 0 <= j < |caches| ensures Computed(caches[j], shared[j], results[j], capacity) { assert j in order; }
  }

  /** The vectors hold a result that is not empty, and the shared size is that of the first. */
  ghost predicate Computed(cache: Chunks, size: nat, result: seq<NodeID>, capacity: nat) {
    && result != [] && Flat(cache) == result && (exists at :: Filled(cache, at, capacity))
    && cache != [] && size == |cache[0]|
  }

  // ----- how often a tuple is given out -----

  ghost function Count(outputs: seq<Output>, r: Row, x: seq<NodeID>): nat {
    if outputs == [] then 0
    else
      (if outputs[0].row == r && |outputs[0].vectors| == |x| then Combos(outputs[0].vectors, x) else 0) +
      Count(outputs[1..], r, x)
  }

  lemma {:induction false} CountConcat(a: seq<Output>, b: seq<Output>, r: Row, x: seq<NodeID>)
    ensures Count(a + b, r, x) == Count(a, r, x) + Count(b, r, x)
  {
    if a == [] {
      assert a + b == b;
    } else {
      assert (a + b)[1..] == a[1..] + b;
      CountConcat(a[1..], b, r, x);
    }
  }

  lemma {:induction false} CountTag(row: Row, pieces: seq<seq<seq<NodeID>>>, r: Row, x: seq<NodeID>)
    requires forall p :: p in pieces ==> |p| == |x|
    ensures Count(Tag(row, pieces), r, x) == if row == r then Sum(pieces, x) else 0
  {
    if pieces != [] {
      CountTag(row, pieces[1..], r, x);
      assert Tag(row, pieces)[1..] == Tag(row, pieces[1..]);
    }
  }

  /** How often `x` is given out for a row. */
  ghost function RowGiven(join: Join, row: Row, capacity: nat, x: seq<NodeID>): nat
    requires join.Valid() && |row| == |join.tables| && capacity > 0 && |x| == join.outputs
  {
    Count(RowPieces(join, row, capacity), row, x)
  }

  lemma {:induction false} OtherRow(join: Join, row: Row, capacity: nat, r: Row, x: seq<NodeID>)
    requires join.Valid() && |row| == |join.tables| && capacity > 0 && |x| == join.outputs && row != r
    ensures Count(RowPieces(join, row, capacity), r, x) == 0
  {
    if join.AllFound(row) && NoneEmpty(join.Results(row)) {
      PacksLoaded(join.Results(row), capacity);
      CountTag(row, Pieces(Packs(join.Results(row), capacity)), r, x);
    }
  }

  lemma {:induction false} RowsGiven(join: Join, rows: seq<Row>, capacity: nat, r: Row, x: seq<NodeID>, w: nat)
    requires join.Valid() && capacity > 0 && |x| == join.outputs && forall k :: k in rows ==> |k| == |join.tables|
    requires r in rows ==> w == RowGiven(join, r, capacity, x)
    ensures Count(RowsPieces(join, rows, capacity), r, x) == multiset(rows)[r] * w
  {
    if rows != [] {
      assert rows == [rows[0]] + rows[1..];
      RowsGiven(join, rows[1..], capacity, r, x, w);
      CountConcat(RowPieces(join, rows[0], capacity), RowsPieces(join, rows[1..], capacity), r, x);
      if rows[0] != r { OtherRow(join, rows[0], capacity, r, x); }
      var n := multiset(rows[1..])[r];
      assert multiset(rows)[r] == if rows[0] == r then n + 1 else n;
      Succ(n, w);
    }
  }

  lemma {:induction false} Succ(n: nat, a: nat)
    ensures (n + 1) * a == n * a + a
  {
  }

  /** The results of a row, if it has any, fit into their vectors such that nothing is cut. */
  ghost predicate RowFits(join: Join, row: Row, capacity: nat)
    requires join.Valid() && |row| == |join.tables| && capacity > 0
  {
    join.AllFound(row) && NoneEmpty(join.Results(row)) ==> Fill(join.Results(row), capacity)
  }

  lemma {:induction false} RowGivenIs(join: Join, row: Row, capacity: nat, x: seq<NodeID>)
    requires join.Valid() && |row| == |join.tables| && capacity > 0 && |x| == join.outputs
    ensures join.AllFound(row) && NoneEmpty(join.Results(row)) ==>
              && AllLoaded(Packs(join.Results(row), capacity))
              && RowGiven(join, row, capacity, x) == Sum(Pieces(Packs(join.Results(row), capacity)), x)
              && join.RowResult(row, x) == Combos(join.Results(row), x)
    ensures !(join.AllFound(row) && NoneEmpty(join.Results(row))) ==>
              RowGiven(join, row, capacity, x) == 0 == join.RowResult(row, x)
  {
    if join.AllFound(row) {
      var results := join.Results(row);
      if NoneEmpty(results) {
        PacksLoaded(results, capacity);
        CountTag(row, Pieces(Packs(results, capacity)), row, x);
      } else {
        var j :| 0 <= j < |results| && results[j] == [];
        CombosZero(results, x, j);
      }
    }
  }

  /** A row's tuples are all given out exactly if its results fit their vectors. */
  lemma {:induction false} RowGivenIff(join: Join, row: Row, capacity: nat)
    requires join.Valid() && |row| == |join.tables| && capacity > 0
    ensures (forall x :: |x| == join.outputs ==> RowGiven(join, row, capacity, x) == join.RowResult(row, x)) <==>
            RowFits(join, row, capacity)
  {
    if join.AllFound(row) && NoneEmpty(join.Results(row)) {
      var results := join.Results(row);
      PiecesAreProductIff(results, capacity);
      forall x | |x| == join.outputs
        ensures RowGiven(join, row, capacity, x) == Sum(Pieces(Packs(results, capacity)), x)
        ensures join.RowResult(row, x) == Combos(results, x)
      {
        RowGivenIs(join, row, capacity, x);
      }
    } else {
      forall x | |x| == join.outputs ensures RowGiven(join, row, capacity, x) == join.RowResult(row, x) {
        RowGivenIs(join, row, capacity, x);
      }
    }
  }

  /** The matches of the pattern over all probe rows. */
  ghost function Matches(join: Join, rows: seq<Row>, r: Row, x: seq<NodeID>): nat
    requires join.Valid() && |x| == join.outputs && forall k :: k in rows ==> |k| == |join.tables|
  {
    multiset(rows)[r] * if |r| == |join.tables| then join.JoinWays(r, x, 0) else 0
  }

  lemma {:induction false} RowsAreJoin(join: Join, rows: seq<Row>, capacity: nat, r: Row, x: seq<NodeID>)
    requires join.Valid() && capacity > 0 && |x| == join.outputs && forall k :: k in rows ==> |k| == |join.tables|
    requires r in rows ==> join.ListsInOrder(r) && RowFits(join, r, capacity)
    ensures Count(RowsPieces(join, rows, capacity), r, x) == Matches(join, rows, r, x)
  {
    if r in rows {
      RowIsJoin(join, r, x);
      RowGivenIff(join, r, capacity);
    }
    RowsGiven(join, rows, capacity, r, x, if |r| == |join.tables| then join.JoinWays(r, x, 0) else 0);
  }

  lemma {:induction false} RowLost(join: Join, rows: seq<Row>, capacity: nat, r: Row) returns (x: seq<NodeID>)
    requires join.Valid() && capacity > 0 && forall k :: k in rows ==> |k| == |join.tables|
    requires r in rows && join.ListsInOrder(r) && !RowFits(join, r, capacity)
    ensures |x| == join.outputs && Count(RowsPieces(join, rows, capacity), r, x) != Matches(join, rows, r, x)
  {
    RowGivenIff(join, r, capacity);
    x :| |x| == join.outputs && RowGiven(join, r, capacity, x) != join.RowResult(r, x);
    RowIsJoin(join, r, x);
    RowsGiven(join, rows, capacity, r, x, RowGiven(join, r, capacity, x));
    Differ(multiset(rows)[r], RowGiven(join, r, capacity, x), join.JoinWays(r, x, 0));
  }

  lemma {:induction false} Differ(n: nat, a: nat, b: nat)
    requires n > 0 && a != b
    ensures n * a != n * b
  {
    if a < b { MulStep(a, b, n); } else { MulStep(b, a, n); }
  }

  ghost predicate SmallFrom(sizes: seq<nat>, from: nat, capacity: nat) {
    forall k :: from <= k < |sizes| ==> sizes[k] <= capacity
  }

  /** Each size is at most the capacity, or a multiple of it, or followed only by such as are at most the
      capacity. */
  ghost predicate SizesFit(sizes: seq<nat>, capacity: nat)
    requires capacity > 0
  {
    forall j :: 0 <= j < |sizes| ==>
      sizes[j] <= capacity || sizes[j] % capacity == 0 || SmallFrom(sizes, j + 1, capacity)
  }

  lemma {:induction false} FillIsSizes(results: seq<seq<NodeID>>, sizes: seq<nat>, capacity: nat)
    requires capacity > 0 && |results| == |sizes| && forall j :: 0 <= j < |sizes| ==> sizes[j] == |results[j]|
    ensures Fill(results, capacity) <==> SizesFit(sizes, capacity)
  {
    forall from: nat ensures OneVectorEach(results, from, capacity) <==> SmallFrom(sizes, from, capacity) {
      assert OneVectorEach(results, from, capacity) <==>
             forall k :: from <= k < |results| ==> sizes[k] <= capacity;
    }
  }

  ghost function AllChoices(join: Join, row: Row): seq<nat>
    requires join.Valid() && |row| == |join.tables|
  {
    seq(join.outputs, j requires 0 <= j < join.outputs => Choices(join, row, j))
  }

  /** In terms of the edges of a row: where every output node has a choice, the numbers of choices fit. */
  ghost predicate ChoicesFit(join: Join, row: Row, capacity: nat)
    requires join.Valid() && |row| == |join.tables| && capacity > 0
  {
    join.AllFound(row) && 0 !in AllChoices(join, row) ==> SizesFit(AllChoices(join, row), capacity)
  }

  lemma {:induction false} RowFitsIff(join: Join, row: Row, capacity: nat)
    requires join.Valid() && |row| == |join.tables| && capacity > 0 && join.ListsInOrder(row)
    ensures RowFits(join, row, capacity) <==> ChoicesFit(join, row, capacity)
  {
    if join.AllFound(row) {
      var results, sizes := join.Results(row), AllChoices(join, row);
      forall j | 0 <= j < join.outputs ensures sizes[j] == |results[j]| { ResultSize(join, row, j); }
      FillIsSizes(results, sizes, capacity);
      assert NoneEmpty(results) <==> 0 !in sizes;
    }
  }

  /** With lists that sorting puts in order, the operator gives out the join of the rows with the edges
      of all connected pairs exactly if the choices of every row fit their vectors. */
  lemma {:induction false} OperatorIsJoinIff(join: Join, rows: seq<Row>, capacity: nat)
    requires join.Valid() && capacity > 0 && forall k :: k in rows ==> |k| == |join.tables|
    requires forall k :: k in rows ==> join.ListsInOrder(k)
    ensures (forall r, x :: |x| == join.outputs ==>
               Count(RowsPieces(join, rows, capacity), r, x) == Matches(join, rows, r, x)) <==>
            forall k :: k in rows ==> ChoicesFit(join, k, capacity)
  {
    forall k | k in rows ensures RowFits(join, k, capacity) <==> ChoicesFit(join, k, capacity) {
      RowFitsIff(join, k, capacity);
    }
    if forall k :: k in rows ==> RowFits(join, k, capacity) {
      forall r, x | |x| == join.outputs
        ensures Count(RowsPieces(join, rows, capacity), r, x) == Matches(join, rows, r, x)
      {
        RowsAreJoin(join, rows, capacity, r, x);
      }
    } else {
      var r :| r in rows && !RowFits(join, r, capacity);
      var x := RowLost(join, rows, capacity, r);
    }
  }
}
