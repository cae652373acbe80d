/** What the multiway intersect operator does with lists that its sort leaves unsorted. */
module UnsortedLists {
  import opened Intersection
  import opened IntersectMultiway
  import opened CartesianCount
  import opened IntersectProbe
  import opened IntersectRow
  import opened IntersectOperator

  /** A chunk per build tuple, all of one key. */
  function EntriesOf(key: NodeID, chunks: Chunks): (entries: seq<Entry>)
    ensures |entries| == |chunks| && forall e :: e in entries ==> |e.lists| == 1
  {
    if chunks == [] then []
    else var n := |chunks| - 1; EntriesOf(key, chunks[..n]) + [Entry(key, [chunks[n]])]
  }

  lemma {:induction false} EntriesHold(key: NodeID, chunks: Chunks)
    requires forall k :: 0 <= k < |chunks| ==> chunks[k] != []
    ensures ListsOf(EntriesOf(key, chunks), key, 0) == chunks
  {
    if chunks != [] {
      var n := |chunks| - 1;
      EntriesHold(key, chunks[..n]);
      var entries := EntriesOf(key, chunks);
      assert entries[..n] == EntriesOf(key, chunks[..n]) && entries[n] == Entry(key, [chunks[n]]);
      assert chunks[..n] + [chunks[n]] == chunks;
    }
  }

  const KEY := NodeID(0, 0)

  /** One output node between a list and a list of one id. */
  function Against(sort: Sort, chunks: Chunks, y: NodeID): Join {
    Join([HashTable(_ => 0, EntriesOf(KEY, chunks)), HashTable(_ => 0, EntriesOf(KEY, [[y]]))],
         [[true], [true]], 1, sort)
  }

  lemma {:induction false} BothConnected()
    ensures Connected([true]) == [0] && Connected([true, true]) == [0, 1]
  {
    assert [true][..0] == [] && [true, true][..1] == [true];
    assert Connected([true]) == Connected([]) + [0];
    assert Connected([true, true]) == Connected([true]) + [1];
  }

  /** Two tables with one list per tuple, both connected to the one output node. */
  ghost predicate TwoTables(join: Join) {
    && |join.tables| == 2 && join.connectivity == [[true], [true]] && join.outputs == 1 && Sorts(join.sort)
    && (forall e :: e in join.tables[0].entries ==> |e.lists| == 1)
    && (forall e :: e in join.tables[1].entries ==> |e.lists| == 1)
  }

  lemma {:induction false} TwoValid(join: Join)
    requires TwoTables(join)
    ensures join.Valid() && join.Column(0) == [true, true]
  {
    BothConnected();
    BothInColumn(join);
    forall i | 0 <= i < 2 ensures |join.connectivity[i]| == 1 && Connected(join.connectivity[i]) != [] {
      assert join.connectivity[i] == [true];
    }
    forall j | 0 <= j < 1 ensures Connected(join.Column(j)) != [] { assert j == 0; }
    forall i, e | 0 <= i < |join.tables| && e in join.tables[i].entries ensures |e.lists| == 1 {
      assert i == 0 || i == 1;
    }
  }

  lemma {:induction false} BothInColumn(join: Join)
    requires join.connectivity == [[true], [true]]
    ensures join.Column(0) == [true, true]
  {
    var column := join.Column(0);
    assert |column| == 2 && column[0] && column[1];
  }

  lemma {:induction false} TwoInputs(join: Join, row: Row)
    requires |row| == |join.tables| == |join.connectivity| == 2 && join.Column(0) == [true, true]
    ensures Lists(join.Inputs(row, 0)) ==
            [Flat(SortChunks(join.sort, join.Found(row, 0, 0))), Flat(SortChunks(join.sort, join.Found(row, 1, 0)))]
  {
    BothConnected();
    var a, b := SortChunks(join.sort, join.Found(row, 0, 0)), SortChunks(join.sort, join.Found(row, 1, 0));
    var ins := join.Inputs(row, 0);
    assert |ins| == 2 && ins[0] == a && ins[1] == b;
    ListsOfTwo(ins, a, b);
  }

  lemma {:induction false} ListsOfTwo(ins: seq<Chunks>, a: Chunks, b: Chunks)
    requires |ins| == 2 && ins[0] == a && ins[1] == b
    ensures Lists(ins) == [Flat(a), Flat(b)]
  {
    var lists := Lists(ins);
    assert |lists| == 2 && lists[0] == Flat(a) && lists[1] == Flat(b);
  }

  lemma {:induction false} AgainstFound(sort: Sort, chunks: Chunks, y: NodeID)
    requires forall k :: 0 <= k < |chunks| ==> chunks[k] != []
    ensures var join := Against(sort, chunks, y);
            join.Found([KEY, KEY], 0, 0) == chunks && join.Found([KEY, KEY], 1, 0) == [[y]]
  {
    EntriesHold(KEY, chunks);
    EntriesHold(KEY, [[y]]);
  }

  /** Two tables, both with a list for the one output node. */
  lemma {:induction false} BothFound(join: Join, row: Row)
    requires join.Valid() && |row| == |join.tables| == 2 && join.outputs == 1
    requires join.Found(row, 0, 0) != [] && join.Found(row, 1, 0) != []
    ensures join.AllFound(row)
  {
    forall i, j | 0 <= i < |row| && 0 <= j < join.outputs && join.connectivity[i][j]
      ensures join.Found(row, i, j) != []
    {
      assert (i == 0 || i == 1) && j == 0;
    }
  }

  lemma {:induction false} OneChunk(sort: Sort, y: NodeID)
    requires Sorts(sort)
    ensures Flat(SortChunks(sort, [[y]])) == [y]
  {
    assert multiset(sort([y])) == multiset([y]);
    OneId(sort([y]), y);
    assert SortChunks(sort, [[y]]) == [[y]] + SortChunks(sort, []) == [[y]] by { assert [[y]][1..] == []; }
    assert Flat([[y]]) == [y] + Flat([]) == [y];
  }

  lemma {:induction false} OneId(s: seq<NodeID>, y: NodeID)
    requires multiset(s) == multiset([y])
    ensures s == [y]
  {
    assert |s| == |multiset(s)| == 1;
    assert s[0] in multiset(s);
  }

  lemma {:induction false} OneGiven(join: Join, row: Row, capacity: nat, y: NodeID)
    requires join.Valid() && |row| == |join.tables| && join.outputs == 1 && join.AllFound(row) && capacity > 0
    ensures Count(RowsPieces(join, [row], capacity), row, [y]) <= multiset(join.Result(row, 0))[y]
  {
    RowsGiven(join, [row], capacity, row, [y], RowGiven(join, row, capacity, [y]));
    OneTime(row, RowGiven(join, row, capacity, [y]));
    GivenAtMost(join, row, capacity, [y]);
    OneResult(join, row, y);
  }

  lemma {:induction false} OneTime(row: Row, w: nat)
    ensures multiset([row])[row] * w == w
  {
    assert multiset([row])[row] == 1;
  }

  lemma {:induction false} OneResult(join: Join, row: Row, y: NodeID)
    requires join.Valid() && |row| == |join.tables| && join.outputs == 1 && join.AllFound(row)
    ensures Combos(join.Results(row), [y]) == multiset(join.Result(row, 0))[y]
  {
    assert join.Results(row) == [join.Result(row, 0)];
    OneCombo(join.Result(row, 0), y);
  }

  lemma {:induction false} OneCombo(result: seq<NodeID>, y: NodeID)
    ensures Combos([result], [y]) == multiset(result)[y]
  {
    assert [result][1..] == [] && [y][1..] == [];
    assert Combos([result], [y]) == multiset(result)[y] * 1;
  }

  lemma {:induction false} OneMatches(join: Join, row: Row, y: NodeID)
    requires join.Valid() && |row| == |join.tables| && join.outputs == 1
    ensures Matches(join, [row], row, [y]) == Ways(Lists(join.Inputs(row, 0)), y)
  {
    var ps := Connected(join.Column(0));
    NodeIsWays(join, ps, row, 0, y, Lists(join.Inputs(row, 0)));
    var ways := join.NodeWays(ps, row, 0, y);
    assert join.JoinWays(row, [y], 0) == ways * join.JoinWays(row, [y], 1) == ways * 1;
    OneTime(row, ways);
  }

  lemma {:induction false} GivenAtMost(join: Join, row: Row, capacity: nat, x: seq<NodeID>)
    requires join.Valid() && |row| == |join.tables| && |x| == join.outputs && join.AllFound(row) && capacity > 0
    ensures RowGiven(join, row, capacity, x) <= Combos(join.Results(row), x)
  {
    var results := join.Results(row);
    RowGivenIs(join, row, capacity, x);
    if NoneEmpty(results) {
      PacksLoaded(results, capacity);
      AtMostProduct(Packs(results, capacity), x);
    }
  }

  /** For every list that the sort leaves unsorted there is a second list, of one id, with which the
      operator loses a match. */
  lemma {:induction false} UnsortedLoses(sort: Sort, chunks: Chunks, capacity: nat) returns (y: NodeID)
    requires Sorts(sort) && capacity > 0 && forall k :: 0 <= k < |chunks| ==> chunks[k] != []
    requires !Sorted(Flat(SortChunks(sort, chunks)))
    ensures var join, row := Against(sort, chunks, y), [KEY, KEY];
            && join.Valid() && join.Found(row, 0, 0) == chunks
            && Count(RowsPieces(join, [row], capacity), row, [y]) < Matches(join, [row], row, [y])
  {
    var s := Flat(SortChunks(sort, chunks));
    y := LostId(s);
    var join, row := Against(sort, chunks, y), [KEY, KEY];
    assert TwoTables(join);
    TwoValid(join);
    AgainstFound(sort, chunks, y);
    TwoInputs(join, row);
    OneChunk(sort, y);
    BothFound(join, row);
    OneGiven(join, row, capacity, y);
    OneMatches(join, row, y);
  }

  lemma {:induction false} LostId(s: seq<NodeID>) returns (y: NodeID)
    requires !Sorted(s)
    ensures s != [] && multiset(Intersect([s, [y]]))[y] < Ways([s, [y]], y)
  {
    if forall p :: 0 <= p && p + 1 < |s| ==> !Less(s[p + 1], s[p]) { AdjacentSorted(s); }
    var p :| 0 <= p && p + 1 < |s| && Less(s[p + 1], s[p]);
    y := s[p + 1];
    IntersectLosesBehind(s, p, y);
  }

  /** For every list that is not in order, some sort by offset and some second list lose a match. */
  lemma {:induction false} NotInOrderLoses(chunks: Chunks, capacity: nat) returns (sort: Sort, y: NodeID)
    requires capacity > 0 && forall k :: 0 <= k < |chunks| ==> chunks[k] != []
    requires !(InOrder(chunks) && AllFollow(chunks))
    ensures var join, row := Against(sort, chunks, y), [KEY, KEY];
            && join.Valid() && join.Found(row, 0, 0) == chunks
            && Count(RowsPieces(join, [row], capacity), row, [y]) < Matches(join, [row], row, [y])
  {
    ChunkSortSortsIff(chunks);
    sort :| Sorts(sort) && !Sorted(Flat(SortChunks(sort, chunks)));
    y := UnsortedLoses(sort, chunks, capacity);
  }
}
