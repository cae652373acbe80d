/** What a table scan gives with column predicates, and as an index lookup. */
module ScanFacts {
  import opened QueryPlan
  import opened PlanFacts

  ghost predicate Columns(node: Expr, properties: seq<Expr>) {
    node.Property? && forall i :: 0 <= i < |properties| ==> properties[i].Property?
  }

  lemma {:induction false} ScanRowsSplit(node: Expr, properties: seq<Expr>, a: seq<Tuple>, b: seq<Tuple>)
    requires Columns(node, properties)
    ensures ScanRows(node, properties, a + b) == ScanRows(node, properties, a) + ScanRows(node, properties, b)
  {
    if a == [] {
      assert a + b == b;
    } else {
      assert (a + b)[1..] == a[1..] + b;
      ScanRowsSplit(node, properties, a[1..], b);
    }
  }

  lemma {:induction false} NoScanRow(node: Expr, properties: seq<Expr>, ts: seq<Tuple>, row: Row)
    requires Columns(node, properties) && forall i :: 0 <= i < |ts| ==> ScanRow(node, properties, ts[i]) != row
    ensures multiset(ScanRows(node, properties, ts))[row] == 0
  {
    if ts != [] { NoScanRow(node, properties, ts[1..], row); }
  }

  /** A skipped block has no row that passes the column predicates. */
  lemma {:induction false} KeptTimes(db: Database, node: Expr, tables: seq<nat>, properties: seq<Expr>, id: nat,
                                     pushed: Pushed, k: nat, row: Row)
    requires ScanOk(db, node, tables, properties) && id in tables && k <= |db.tables[id].blocks| &&
             PushedTrue(pushed, row)
    ensures multiset(ScanRows(node, properties, Kept(db, id, pushed, k)))[row] ==
            multiset(ScanRows(node, properties, Joined(db.tables[id].blocks[k..])))[row]
    decreases |db.tables[id].blocks| - k
  {
    var blocks := db.tables[id].blocks;
    if k < |blocks| {
      KeptTimes(db, node, tables, properties, id, pushed, k + 1, row);
      assert blocks[k..][1..] == blocks[k + 1..];
      ScanRowsSplit(node, properties, blocks[k], Joined(blocks[k + 1..]));
      if db.skips(id, k, pushed) {
        forall i | 0 <= i < |blocks[k]| ensures ScanRow(node, properties, blocks[k][i]) != row {
          assert !PushedTrue(pushed, ScanRow(node, properties, db.tables[id].blocks[k][i]));
        }
        NoScanRow(node, properties, blocks[k], row);
        assert [] + Kept(db, id, pushed, k + 1) == Kept(db, id, pushed, k + 1);
      } else {
        ScanRowsSplit(node, properties, blocks[k], Kept(db, id, pushed, k + 1));
      }
    }
  }

  lemma {:induction false} TableTimes(db: Database, node: Expr, tables: seq<nat>, properties: seq<Expr>, id: nat,
                                      pushed: Pushed, row: Row)
    requires ScanOk(db, node, tables, properties) && id in tables && PushedTrue(pushed, row)
    ensures multiset(ScanRows(node, properties, Kept(db, id, pushed, 0)))[row] ==
            multiset(ScanRows(node, properties, AllTuples(db.tables[id])))[row]
  {
    KeptTimes(db, node, tables, properties, id, pushed, 0, row);
    assert db.tables[id].blocks[0..] == db.tables[id].blocks;
  }

  lemma {:induction false} TablesTimes(db: Database, node: Expr, tables: seq<nat>, properties: seq<Expr>, n: nat,
                                       pushed: Pushed, row: Row)
    requires ScanOk(db, node, tables, properties) && n <= |tables| && PushedTrue(pushed, row)
    ensures multiset(ScanTables(db, node, properties, tables[n..], pushed))[row] ==
            multiset(ScanTables(db, node, properties, tables[n..], []))[row]
    decreases |tables| - n
  {
    if n < |tables| {
      assert tables[n..][1..] == tables[n + 1..];
      TablesTimes(db, node, tables, properties, n + 1, pushed, row);
      TableTimes(db, node, tables, properties, tables[n], pushed, row);
      TableTimes(db, node, tables, properties, tables[n], [], row);
    }
  }

  /** Column predicates do not change how often a row is scanned that passes them all. */
  lemma {:induction false} PushedScanTimes(db: Database, scan: Op, pushed: Pushed, row: Row)
    requires PlanOk(db, scan) && scan.Scan? && scan.scanType.TableScan? && scan.pushed == [] && PushedTrue(pushed, row)
    ensures PlanOk(db, scan.(pushed := pushed)) && Times(db, scan.(pushed := pushed), row) == Times(db, scan, row)
  {
    TablesTimes(db, scan.node, scan.tables, scan.properties, 0, pushed, row);
    assert scan.tables[0..] == scan.tables;
  }

  // ----- index lookup -----

  lemma {:induction false} ConstantValue(keys: map<string, string>, scope: set<Name>, e: Expr, row: Row)
    requires IsConstant(e) && ExprOk(keys, scope, e) && row.Keys == scope && forall n :: n in scope ==> n.Prop?
    ensures Evaluate(e, row) == Evaluate(e, map[])
  {
    if e.Function? {
      ConstantValue(keys, scope, e.args[0], row);
      assert seq(1, i requires 0 <= i < 1 => Evaluate(e.args[i], row)) ==
             seq(1, i requires 0 <= i < 1 => Evaluate(e.args[i], map[]));
    }
  }

  /** The filter on the primary key keeps the rows of the tuples the index would be asked for. */
  lemma {:induction false} FilterIsHaving(node: Expr, properties: seq<Expr>, ts: seq<Tuple>, p: Expr, key: string,
                                          v: Value)
    requires Columns(node, properties)
    requires forall i :: 0 <= i < |ts| ==> (True(p, ScanRow(node, properties, ts[i])) <==> ValueIn(ts[i], key) == v)
    ensures FilterRows(ScanRows(node, properties, ts), p) == ScanRows(node, properties, Having(ts, key, v))
  {
    if ts != [] {
      var rows := ScanRows(node, properties, ts);
      assert rows[1..] == ScanRows(node, properties, ts[1..]) && rows[0] == ScanRow(node, properties, ts[0]);
      assert forall i :: 0 <= i < |ts| - 1 ==> ts[1..][i] == ts[i + 1];
      FilterIsHaving(node, properties, ts[1..], p, key, v);
      var rest := Having(ts[1..], key, v);
      if ValueIn(ts[0], key) == v {
        assert ([ts[0]] + rest)[1..] == rest;
      } else {
        assert [] + rest == rest;
      }
    }
  }

  lemma {:induction false} HavingOne(ts: seq<Tuple>, key: string, v: Value)
    requires forall i, j :: 0 <= i < j < |ts| ==> ValueIn(ts[i], key) != ValueIn(ts[j], key)
    ensures |Having(ts, key, v)| <= 1
    ensures (forall i :: 0 <= i < |ts| ==> ValueIn(ts[i], key) != v) ==> Having(ts, key, v) == []
  {
    if ts != [] {
      HavingOne(ts[1..], key, v);
      if ValueIn(ts[0], key) == v {
        forall i | 0 <= i < |ts[1..]| ensures ValueIn(ts[1..][i], key) != v { assert ts[1..][i] == ts[i + 1]; }
      }
    }
  }

  lemma {:induction false} NullMatchesNone(rows: seq<Row>, p: Expr)
    requires forall i :: 0 <= i < |rows| ==> !True(p, rows[i])
    ensures FilterRows(rows, p) == []
  {
    if rows != [] { NullMatchesNone(rows[1..], p); }
  }

  /** A comparison of the node's primary key with a constant, on a single table. */
  ghost predicate KeyComparison(db: Database, scan: Op, p: Expr) {
    && scan.Scan? && PlanOk(db, scan) && |scan.tables| == 1 && p.Equals?
    && ExprOk(db.keys, Scope(scan), p.left) && ExprOk(db.keys, Scope(scan), p.right)
    && p.left.Property? && p.left.variable == scan.node.variable && p.left.primaryKey && IsConstant(p.right)
  }

  lemma {:induction false} KeyTrue(db: Database, scan: Op, p: Expr, t: Tuple)
    requires KeyComparison(db, scan, p)
    ensures var v := Evaluate(p.right, map[]);
            True(p, ScanRow(scan.node, scan.properties, t)) <==>
            !v.Null? && !ValueIn(t, db.keys[scan.node.variable]).Null? && ValueIn(t, db.keys[scan.node.variable]) == v
  {
    var row := ScanRow(scan.node, scan.properties, t);
    assert forall n :: n in Scope(scan) ==> n.Prop?;
    assert row.Keys == Scope(scan);
    assert NameOf(p) !in row;
    ConstantValue(db.keys, Scope(scan), p.right, row);
    assert p.left.property == db.keys[scan.node.variable];
    assert Evaluate(p.left, row) == ValueIn(t, p.left.property);
  }

  /** The index lookup gives exactly the rows of the table that pass the comparison. */
  lemma {:induction false} KeyScanTimes(db: Database, scan: Op, p: Expr, row: Row)
    requires KeyComparison(db, scan, p) && scan.scanType.TableScan? && scan.pushed == []
    ensures PlanOk(db, scan.(scanType := PrimaryKeyScan(p.right)))
    ensures Times(db, scan.(scanType := PrimaryKeyScan(p.right)), row) ==
            if True(p, row) then Times(db, scan, row) else 0
  {
    var node, properties := scan.node, scan.properties;
    var table := db.tables[scan.tables[0]];
    var rows := ScanRows(node, properties, AllTuples(table));
    OneTableTimes(db, scan, row);
    KeyFilterIsLookup(db, scan, p);
    FilterTimes(rows, p, row);
  }

  lemma {:induction false} OneTableTimes(db: Database, scan: Op, row: Row)
    requires scan.Scan? && PlanOk(db, scan) && |scan.tables| == 1 && scan.scanType.TableScan? && scan.pushed == []
    ensures Times(db, scan, row) ==
            multiset(ScanRows(scan.node, scan.properties, AllTuples(db.tables[scan.tables[0]])))[row]
  {
    TableTimes(db, scan.node, scan.tables, scan.properties, scan.tables[0], [], row);
    assert scan.tables[1..] == [];
    var first := ScanRows(scan.node, scan.properties, Kept(db, scan.tables[0], [], 0));
    assert ScanTables(db, scan.node, scan.properties, scan.tables, []) == first + [];
    assert first + [] == first;
  }

  lemma {:induction false} KeyFilterIsLookup(db: Database, scan: Op, p: Expr)
    requires KeyComparison(db, scan, p)
    ensures var table := db.tables[scan.tables[0]];
            FilterRows(ScanRows(scan.node, scan.properties, AllTuples(table)), p) ==
            ScanRows(scan.node, scan.properties, Lookup(table, Evaluate(p.right, map[])))
  {
    var node, properties := scan.node, scan.properties;
    var table := db.tables[scan.tables[0]];
    var ts, key, v := AllTuples(table), table.primaryKey, Evaluate(p.right, map[]);
    forall i | 0 <= i < |ts|
      ensures True(p, ScanRow(node, properties, ts[i])) <==> !v.Null? && ValueIn(ts[i], key) == v
    {
      KeyTrue(db, scan, p, ts[i]);
    }
    if v.Null? {
      ScanRowsAt(node, properties, ts);
      NullMatchesNone(ScanRows(node, properties, ts), p);
    } else {
      FilterIsHaving(node, properties, ts, p, key, v);
      HavingOne(ts, key, v);
      assert Having(ts, key, v) == Lookup(table, v);
    }
  }

  lemma {:induction false} ScanRowsAt(node: Expr, properties: seq<Expr>, ts: seq<Tuple>)
    requires Columns(node, properties)
    ensures |ScanRows(node, properties, ts)| == |ts|
    ensures forall i :: 0 <= i < |ts| ==> ScanRows(node, properties, ts)[i] == ScanRow(node, properties, ts[i])
  {
    if ts != [] { ScanRowsAt(node, properties, ts[1..]); }
  }

  /** A table of one tuple. */
  lemma {:induction false} ScanOne(db: Database, node: Expr, properties: seq<Expr>, id: nat, t: Tuple)
    requires node.Property? && forall i :: 0 <= i < |properties| ==> properties[i].Property?
    requires id in db.tables && db.tables[id].blocks == [[t]] && !db.skips(id, 0, [])
    ensures ScanTables(db, node, properties, [id], []) == [ScanRow(node, properties, t)]
    ensures AllTuples(db.tables[id]) == [t]
  {
    assert Kept(db, id, [], 0) == [t] by { assert Kept(db, id, [], 1) == []; }
    assert ScanRows(node, properties, [t]) == [ScanRow(node, properties, t)] by { assert [t][1..] == []; }
    assert [id][1..] == [];
    assert Joined([[t]]) == [t] by { assert [[t]][1..] == []; }
  }
}
