/** What the multiway intersect operator computes for one probe row, and the join it stands for. */
module IntersectRow {
  import opened Intersection
  import opened IntersectMultiway
  import opened CartesianCount
  import opened IntersectProbe

  // ----- sorting the lists of a row -----

  type Sort = seq<NodeID> -> seq<NodeID>

  ghost predicate ByOffset(s: seq<NodeID>) {
    forall i, j :: 0 <= i < j < |s| ==> s[i].offset <= s[j].offset
  }

  /** A sort by offset alone. How it orders ids of equal offset is open. */
  ghost predicate Sorts(sort: Sort) {
    forall s :: multiset(sort(s)) == multiset(s) && ByOffset(sort(s))
  }

  /** Of two ids of a chunk the smaller has the smaller offset. */
  ghost predicate OffsetsFollow(s: seq<NodeID>) {
    forall u, v :: u in s && v in s && Less(u, v) ==> u.offset < v.offset
  }

  lemma {:induction false} SortKeeps(sort: Sort, s: seq<NodeID>)
    requires Sorts(sort)
    ensures multiset(sort(s)) == multiset(s)
    ensures OffsetsFollow(s) ==> Sorted(sort(s))
  {
    SameMembers(sort(s), s);
    var r := sort(s);
    assert ByOffset(r);
    if OffsetsFollow(s) {
      forall i, j | 0 <= i < j < |r| ensures !Less(r[j], r[i]) { assert r[i] in s && r[j] in s; }
    }
  }

  function SortChunks(sort: Sort, chunks: Chunks): (r: Chunks) {
    if chunks == [] then [] else [sort(chunks[0])] + SortChunks(sort, chunks[1..])
  }

  lemma {:induction false} SortChunksKeeps(sort: Sort, chunks: Chunks)
    requires Sorts(sort)
    ensures |SortChunks(sort, chunks)| == |chunks| && multiset(Flat(SortChunks(sort, chunks))) == multiset(Flat(chunks))
    ensures forall k :: 0 <= k < |chunks| ==> multiset(SortChunks(sort, chunks)[k]) == multiset(chunks[k])
  {
    if chunks != [] {
      SortKeeps(sort, chunks[0]);
      SortChunksKeeps(sort, chunks[1..]);
      assert SortChunks(sort, chunks)[1..] == SortChunks(sort, chunks[1..]);
    }
  }

  /** No id is below one of an earlier chunk. */
  ghost predicate InOrder(chunks: Chunks) {
    chunks == [] || (InOrder(chunks[1..]) && forall u, v :: u in chunks[0] && v in Flat(chunks[1..]) ==> !Less(v, u))
  }

  ghost predicate AllFollow(chunks: Chunks) {
    forall k :: 0 <= k < |chunks| ==> OffsetsFollow(chunks[k])
  }

  lemma {:induction false} SortedConcat(a: seq<NodeID>, b: seq<NodeID>)
    ensures Sorted(a + b) <==> Sorted(a) && Sorted(b) && forall u, v :: u in a && v in b ==> !Less(v, u)
  {
    var s := a + b;
    if Sorted(s) {
      assert a == s[..|a|] && b == s[|a|..];
      forall u, v | u in a && v in b ensures !Less(v, u) {
        var i :| 0 <= i < |a| && a[i] == u;
        var j :| 0 <= j < |b| && b[j] == v;
        assert s[i] == u && s[|a| + j] == v;
      }
    }
  }

  ghost predicate EachSorted(sort: Sort, chunks: Chunks) {
    chunks == [] || (Sorted(sort(chunks[0])) && EachSorted(sort, chunks[1..]))
  }

  lemma {:induction false} EachSortedAt(sort: Sort, chunks: Chunks)
    ensures EachSorted(sort, chunks) <==> forall k :: 0 <= k < |chunks| ==> Sorted(sort(chunks[k]))
  {
    if chunks != [] {
      EachSortedAt(sort, chunks[1..]);
      assert forall k :: 1 <= k < |chunks| ==> chunks[k] == chunks[1..][k - 1];
    }
  }

  /** Sorting chunk by chunk sorts the whole list if it sorts each chunk and the chunks came in order. */
  lemma {:induction false} ChunkSortSorts(sort: Sort, chunks: Chunks)
    requires Sorts(sort)
    ensures Sorted(Flat(SortChunks(sort, chunks))) <==> InOrder(chunks) && EachSorted(sort, chunks)
  {
    if chunks != [] {
      var first, rest := chunks[0], chunks[1..];
      assert SortChunks(sort, chunks)[1..] == SortChunks(sort, rest);
      ChunkSortSorts(sort, rest);
      SortChunksKeeps(sort, rest);
      SortedConcat(sort(first), Flat(SortChunks(sort, rest)));
      SortKeeps(sort, first);
      SameMembers(sort(first), first);
      SameMembers(Flat(SortChunks(sort, rest)), Flat(rest));
    }
  }

  /** The operator's list is sorted, whatever the sort does with equal offsets, exactly if in every
      chunk the smaller of two ids has the smaller offset and the chunks came in order. */
  lemma {:induction false} ChunkSortSortsIff(chunks: Chunks)
    ensures (forall sort :: Sorts(sort) ==> Sorted(Flat(SortChunks(sort, chunks)))) <==>
            InOrder(chunks) && AllFollow(chunks)
  {
    if InOrder(chunks) && AllFollow(chunks) {
      forall sort | Sorts(sort) ensures Sorted(Flat(SortChunks(sort, chunks))) {
        forall k | 0 <= k < |chunks| ensures Sorted(sort(chunks[k])) { SortKeeps(sort, chunks[k]); }
        EachSortedAt(sort, chunks);
        ChunkSortSorts(sort, chunks);
      }
    }
    if forall sort :: Sorts(sort) ==> Sorted(Flat(SortChunks(sort, chunks))) {
      HighTablesFirstSorts();
      assert Sorted(Flat(SortChunks(HighTablesFirst, chunks)));
      ChunkSortSorts(HighTablesFirst, chunks);
      EachSortedAt(HighTablesFirst, chunks);
      forall k | 0 <= k < |chunks| ensures OffsetsFollow(chunks[k]) { HighTablesFirstUnsorted(chunks[k]); }
    }
  }

  // ----- a sort that does its worst with equal offsets -----

  predicate Leads(x: NodeID, y: NodeID) {
    x.offset < y.offset || (x.offset == y.offset && x.tableID > y.tableID)
  }

  function InsertAhead(s: seq<NodeID>, x: NodeID): seq<NodeID> {
    if s == [] || Leads(x, s[0]) then [x] + s else [s[0]] + InsertAhead(s[1..], x)
  }

  function HighTablesFirst(s: seq<NodeID>): seq<NodeID> {
    if s == [] then [] else InsertAhead(HighTablesFirst(s[..|s| - 1]), s[|s| - 1])
  }

  ghost predicate NoneAhead(s: seq<NodeID>) {
    forall i, j :: 0 <= i < j < |s| ==> !Leads(s[j], s[i])
  }

  lemma {:induction false} InsertAheadKeeps(s: seq<NodeID>, x: NodeID)
    requires NoneAhead(s)
    ensures multiset(InsertAhead(s, x)) == multiset(s) + multiset{x} && NoneAhead(InsertAhead(s, x))
  {
    if s == [] || Leads(x, s[0]) {
    } else {
      InsertAheadKeeps(s[1..], x);
      assert s == [s[0]] + s[1..];
      var r := InsertAhead(s[1..], x);
      forall k | 0 <= k < |r| ensures !Leads(r[k], s[0]) {
        assert r[k] in multiset(r);
        assert r[k] in s[1..] || r[k] == x;
      }
    }
  }

  lemma {:induction false} HighTablesFirstKeeps(s: seq<NodeID>)
    ensures multiset(HighTablesFirst(s)) == multiset(s) && NoneAhead(HighTablesFirst(s))
  {
    if s != [] {
      var n := |s| - 1;
      assert s == s[..n] + [s[n]];
      HighTablesFirstKeeps(s[..n]);
      InsertAheadKeeps(HighTablesFirst(s[..n]), s[n]);
    }
  }

  lemma {:induction false} HighTablesFirstSorts()
    ensures Sorts(HighTablesFirst)
  {
    forall s ensures multiset(HighTablesFirst(s)) == multiset(s) && ByOffset(HighTablesFirst(s)) {
      HighTablesFirstKeeps(s);
    }
  }

  lemma {:induction false} HighTablesFirstUnsorted(s: seq<NodeID>)
    requires Sorted(HighTablesFirst(s))
    ensures OffsetsFollow(s)
  {
    HighTablesFirstKeeps(s);
    var r := HighTablesFirst(s);
    SameMembers(r, s);
    forall u, v | u in s && v in s && Less(u, v) ensures u.offset < v.offset {
      assert u in r && v in r;
      var i :| 0 <= i < |r| && r[i] == u;
      var j :| 0 <= j < |r| && r[j] == v;
    }
  }

  /** One chunk with ids of two tables: however it is sorted by offset, an id is lost against a list
      that holds it. */
  lemma {:induction false} TwoTablesLost(sort: Sort)
    requires Sorts(sort)
    ensures var chunks := [[NodeID(1, 0), NodeID(0, 1)]];
            var list, y := Flat(SortChunks(sort, chunks)), NodeID(0, 1);
            InOrder(chunks) && !Sorted(list) && multiset(Intersect([list, [y]]))[y] < Ways([list, [y]], y)
  {
    var u, y := NodeID(1, 0), NodeID(0, 1);
    var r := sort([u, y]);
    assert multiset(r) == multiset([u, y]) && ByOffset(r);
    assert |r| == |multiset(r)| == 2;
    assert r == [r[0], r[1]];
    assert r[0] in multiset(r) && r[1] in multiset(r);
    assert r == [u, y];
    assert SortChunks(sort, [[u, y]]) == [r] + SortChunks(sort, []);
    assert Flat([r]) == r + Flat([]) == r;
    IntersectLosesBehind(r, 0, y);
  }

  lemma {:induction false} SameMembers(a: seq<NodeID>, b: seq<NodeID>)
    requires multiset(a) == multiset(b)
    ensures forall x :: x in a <==> x in b
  {
    forall x ensures x in a <==> x in b {
      assert x in a <==> x in multiset(a);
      assert x in b <==> x in multiset(b);
    }
  }

  // ----- one row -----

  /** The set indices of a row of flags, in order. */
  function Connected(flags: seq<bool>): (js: seq<nat>)
    ensures Increasing(js, |flags|)
    ensures forall j :: j in js <==> 0 <= j < |flags| && flags[j]
  {
    if flags == [] then []
    else
      var n := |flags| - 1;
      var js := Connected(flags[..n]);
      assert forall j :: j in js <==> 0 <= j < n && flags[j];
      if flags[n] then js + [n] else js
  }

  type Row = seq<NodeID>

  datatype Join = Join(tables: seq<HashTable>, connectivity: seq<seq<bool>>, outputs: nat, sort: Sort) {

    ghost predicate Valid() {
      && |connectivity| == |tables| && outputs > 0 && Sorts(sort)
      && (forall i :: 0 <= i < |tables| ==> |connectivity[i]| == outputs && Connected(connectivity[i]) != [])
      && (forall j :: 0 <= j < outputs ==> Connected(Column(j)) != [])
      && (forall i, e :: 0 <= i < |tables| && e in tables[i].entries ==> |e.lists| == outputs)
    }

    /** Which probe nodes an output node is connected to. */
    function Column(j: nat): seq<bool> {
      seq(|connectivity|, i requires 0 <= i < |connectivity| => j < |connectivity[i]| && connectivity[i][j])
    }

    function Found(row: Row, i: nat, j: nat): Chunks
      requires |row| == |tables| && i < |row|
    {
      ListsOf(tables[i].entries, row[i], j)
    }

    /** Every connected pair has neighbours for this row. */
    ghost predicate AllFound(row: Row)
      requires Valid() && |row| == |tables|
    {
      forall i, j :: 0 <= i < |row| && 0 <= j < outputs && connectivity[i][j] ==> Found(row, i, j) != []
    }

    /** The sorted lists of an output node. */
    function Inputs(row: Row, j: nat): (r: seq<Chunks>)
      requires |row| == |tables| == |connectivity|
      ensures |r| == |Connected(Column(j))|
    {
      var ps := Connected(Column(j));
      seq(|ps|, k requires 0 <= k < |ps| => SortChunks(sort, Found(row, ps[k], j)))
    }

    lemma {:induction false} InputsProbed(row: Row, j: nat)
      requires Valid() && |row| == |tables| && AllFound(row) && j < outputs
      ensures Probed(Inputs(row, j)) && NoneEmpty(Lists(Inputs(row, j)))
    {
      var ps := Connected(Column(j));
      var ins := Inputs(row, j);
      forall k | 0 <= k < |ins| ensures |ins[k]| > 0 && ins[k][0] != [] && Flat(ins[k]) != [] {
        assert ps[k] in ps;
        assert Found(row, ps[k], j) != [];
        SortChunksKeeps(sort, Found(row, ps[k], j));
        FoundNonEmpty(tables[ps[k]].entries, row[ps[k]], j);
        assert |multiset(ins[k][0])| > 0;
      }
    }

    /** The intersection of an output node's lists. */
    ghost function Result(row: Row, j: nat): seq<NodeID>
      requires Valid() && |row| == |tables| && AllFound(row) && j < outputs
    {
      InputsProbed(row, j);
      Intersect(Lists(Inputs(row, j)))
    }

    ghost function Results(row: Row): seq<seq<NodeID>>
      requires Valid() && |row| == |tables| && AllFound(row)
    {
      seq(outputs, j requires 0 <= j < outputs => Result(row, j))
    }

    /** How often the operator gives out `x` for a row. */
    ghost function RowResult(row: Row, x: seq<NodeID>): nat
      requires Valid() && |row| == |tables| && |x| == outputs
    {
      if AllFound(row) then Combos(Results(row), x) else 0
    }

    // ----- the join -----

    /** How many edges lead from `u` to `v` in the input of a connected pair. */
    ghost function Edges(i: nat, j: nat, u: NodeID, v: NodeID): nat
      requires i < |tables|
    {
      EdgeCount(tables[i].entries, u, j, v)
    }

    ghost function NodeWays(ps: seq<nat>, row: Row, j: nat, v: NodeID): nat
      requires |row| == |tables| && Increasing(ps, |tables|)
    {
      if ps == [] then 1 else Edges(ps[0], j, row[ps[0]], v) * NodeWays(ps[1..], row, j, v)
    }

    /** The matches of the pattern that bind the output nodes from `j` on to `x`: the product of the
        numbers of edges over all connected pairs. */
    ghost function JoinWays(row: Row, x: seq<NodeID>, j: nat): nat
      requires Valid() && |row| == |tables| && |x| == outputs && j <= outputs
      decreases outputs - j
    {
      if j == outputs then 1 else NodeWays(Connected(Column(j)), row, j, x[j]) * JoinWays(row, x, j + 1)
    }

    /** The lists of a row are such that sorting their chunks by offset sorts them. */
    ghost predicate ListsInOrder(row: Row)
      requires Valid() && |row| == |tables|
    {
      forall i, j :: 0 <= i < |row| && 0 <= j < outputs && connectivity[i][j] ==>
        InOrder(Found(row, i, j)) && AllFollow(Found(row, i, j))
    }
  }

  ghost function EdgeCount(entries: seq<Entry>, u: NodeID, j: nat, v: NodeID): nat {
    if entries == [] then 0
    else
      var n := |entries| - 1;
      EdgeCount(entries[..n], u, j, v) +
      if entries[n].key == u && j < |entries[n].lists| then multiset(entries[n].lists[j])[v] else 0
  }

  lemma {:induction false} FoundNonEmpty(entries: seq<Entry>, key: NodeID, j: nat)
    ensures forall k :: 0 <= k < |ListsOf(entries, key, j)| ==> ListsOf(entries, key, j)[k] != []
  {
    if entries != [] { FoundNonEmpty(entries[..|entries| - 1], key, j); }
  }

  lemma {:induction false} EdgesAreListed(entries: seq<Entry>, u: NodeID, j: nat, v: NodeID)
    ensures multiset(Flat(ListsOf(entries, u, j)))[v] == EdgeCount(entries, u, j, v)
  {
    if entries != [] {
      var n := |entries| - 1;
      EdgesAreListed(entries[..n], u, j, v);
      var last := ListIn(entries[n], u, j);
      FlatSplit(ListsOf(entries[..n], u, j), last);
      assert last != [] ==> last[1..] == [] && Flat(last) == last[0] + [] == last[0];
    }
  }

  /** One output node: the ways to pick an id from all its sorted lists are the edges to it. */
  lemma {:induction false} NodeIsWays(join: Join, ps: seq<nat>, row: Row, j: nat, v: NodeID, ss: Streams)
    requires Sorts(join.sort) && |row| == |join.tables| && Increasing(ps, |join.tables|) && |ss| == |ps|
    requires forall k :: 0 <= k < |ps| ==> ss[k] == Flat(SortChunks(join.sort, join.Found(row, ps[k], j)))
    ensures Ways(ss, v) == join.NodeWays(ps, row, j, v)
  {
    if ps != [] {
      SortChunksKeeps(join.sort, join.Found(row, ps[0], j));
      EdgesAreListed(join.tables[ps[0]].entries, row[ps[0]], j, v);
      NodeIsWays(join, ps[1..], row, j, v, ss[1..]);
    }
  }

  lemma {:induction false} InputsSorted(join: Join, row: Row, j: nat)
    requires join.Valid() && |row| == |join.tables| && j < join.outputs && join.ListsInOrder(row)
    ensures AllSorted(Lists(join.Inputs(row, j)))
  {
    var ps := Connected(join.Column(j));
    forall k | 0 <= k < |ps| ensures Sorted(Lists(join.Inputs(row, j))[k]) {
      assert ps[k] in ps;
      ChunkSortSortsIff(join.Found(row, ps[k], j));
    }
  }

  lemma {:induction false} ResultIsWays(join: Join, row: Row, j: nat, v: NodeID)
    requires join.Valid() && |row| == |join.tables| && j < join.outputs && join.AllFound(row) && join.ListsInOrder(row)
    ensures multiset(join.Result(row, j))[v] == join.NodeWays(Connected(join.Column(j)), row, j, v)
  {
    join.InputsProbed(row, j);
    InputsSorted(join, row, j);
    IntersectExact(Lists(join.Inputs(row, j)), v);
    NodeIsWays(join, Connected(join.Column(j)), row, j, v, Lists(join.Inputs(row, j)));
  }

  ghost function Total(ids: seq<NodeID>, w: NodeID -> nat): nat {
    if ids == [] then 0 else w(ids[0]) + Total(ids[1..], w)
  }

  /** In how many ways the edges of an output node can be chosen, to whatever id they lead: for every edge
      of the first connected node, the ways to choose the others to the same id. */
  ghost function Choices(join: Join, row: Row, j: nat): nat
    requires join.Valid() && |row| == |join.tables| && j < join.outputs
  {
    var ps := Connected(join.Column(j));
    Total(Flat(join.Found(row, ps[0], j)), v => join.NodeWays(ps[1..], row, j, v))
  }

  lemma {:induction false} TotalIsSize(m: multiset<NodeID>, ids: seq<NodeID>, w: NodeID -> nat)
    requires forall v :: m[v] == multiset(ids)[v] * w(v)
    ensures |m| == Total(ids, w)
  {
    if ids == [] {
      assert m == multiset{};
    } else {
      var v := ids[0];
      assert ids == [v] + ids[1..];
      OneOf(multiset(ids[1..])[v], w(v));
      var m' := m[v := m[v] - w(v)];
      forall u ensures m'[u] == multiset(ids[1..])[u] * w(u) {}
      TotalIsSize(m', ids[1..], w);
    }
  }

  lemma {:induction false} OneOf(n: nat, w: nat)
    ensures (n + 1) * w == n * w + w
  {
  }

  /** An output node has as many results as there are ways to choose its edges. */
  lemma {:induction false} ResultSize(join: Join, row: Row, j: nat)
    requires join.Valid() && |row| == |join.tables| && j < join.outputs && join.AllFound(row) && join.ListsInOrder(row)
    ensures |join.Result(row, j)| == Choices(join, row, j)
  {
    var ps := Connected(join.Column(j));
    var ids, w := Flat(join.Found(row, ps[0], j)), v => join.NodeWays(ps[1..], row, j, v);
    var m := multiset(join.Result(row, j));
    forall v ensures m[v] == multiset(ids)[v] * w(v) {
      ResultIsWays(join, row, j, v);
      EdgesAreListed(join.tables[ps[0]].entries, row[ps[0]], j, v);
    }
    TotalIsSize(m, ids, w);
  }

  lemma {:induction false} CombosAreWays(join: Join, row: Row, x: seq<NodeID>, j: nat)
    requires join.Valid() && |row| == |join.tables| && |x| == join.outputs && j <= join.outputs
    requires join.AllFound(row) && join.ListsInOrder(row)
    ensures Combos(join.Results(row)[j..], x[j..]) == join.JoinWays(row, x, j)
    decreases join.outputs - j
  {
    if j < join.outputs {
      ResultIsWays(join, row, j, x[j]);
      CombosAreWays(join, row, x, j + 1);
      assert join.Results(row)[j..][1..] == join.Results(row)[j + 1..] && x[j..][1..] == x[j + 1..];
    }
  }

  lemma {:induction false} NodeWaysZero(join: Join, ps: seq<nat>, row: Row, j: nat, v: NodeID, k: nat)
    requires |row| == |join.tables| && Increasing(ps, |join.tables|) && k < |ps| && join.Found(row, ps[k], j) == []
    ensures join.NodeWays(ps, row, j, v) == 0
  {
    EdgesAreListed(join.tables[ps[k]].entries, row[ps[k]], j, v);
    if k > 0 { NodeWaysZero(join, ps[1..], row, j, v, k - 1); }
  }

  lemma {:induction false} Times0(n: nat)
    ensures n * 0 == 0 * n == 0
  {
  }

  lemma {:induction false} JoinWaysZero(join: Join, row: Row, x: seq<NodeID>, j: nat, at: nat)
    requires join.Valid() && |row| == |join.tables| && |x| == join.outputs && j <= at < join.outputs
    requires join.NodeWays(Connected(join.Column(at)), row, at, x[at]) == 0
    ensures join.JoinWays(row, x, j) == 0
    decreases at - j
  {
    if j < at {
      JoinWaysZero(join, row, x, j + 1, at);
      Times0(join.NodeWays(Connected(join.Column(j)), row, j, x[j]));
    } else {
      Times0(join.JoinWays(row, x, j + 1));
    }
  }

  /** For lists that come in order the operator gives out, for every probe row, exactly the matches
      of the pattern, each as often as there are ways to choose its edges. */
  lemma {:induction false} RowIsJoin(join: Join, row: Row, x: seq<NodeID>)
    requires join.Valid() && |row| == |join.tables| && |x| == join.outputs && join.ListsInOrder(row)
    ensures join.RowResult(row, x) == join.JoinWays(row, x, 0)
  {
    if join.AllFound(row) {
      CombosAreWays(join, row, x, 0);
      assert join.Results(row)[0..] == join.Results(row) && x[0..] == x;
    } else {
      var i, j :| 0 <= i < |row| && 0 <= j < join.outputs && join.connectivity[i][j] && join.Found(row, i, j) == [];
      var ps := Connected(join.Column(j));
      assert join.Column(j)[i];
      assert i in ps;
      var k :| 0 <= k < |ps| && ps[k] == i;
      NodeWaysZero(join, ps, row, j, x[j], k);
      JoinWaysZero(join, row, x, 0, j);
    }
  }
}
