/** How often a row is in the result of each operator. */
module PlanFacts {
  import opened QueryPlan
  import opened Bags

  function Restrict(row: Row, scope: set<Name>): Row {
    map n | n in row && n in scope :: row[n]
  }

  lemma {:induction false} FilterTimes(rows: seq<Row>, p: Expr, row: Row)
    ensures multiset(FilterRows(rows, p))[row] == if True(p, row) then multiset(rows)[row] else 0
  {
    if rows != [] {
      assert rows == [rows[0]] + rows[1..];
      FilterTimes(rows[1..], p, row);
    }
  }

  // ----- joins of separate sides -----

  ghost predicate AllIn(rows: seq<Row>, scope: set<Name>) {
    forall i :: 0 <= i < |rows| ==> rows[i].Keys == scope
  }

  lemma {:induction false} SplitRow(l: Row, r: Row, a: set<Name>, b: set<Name>)
    requires l.Keys == a && r.Keys == b && a !! b
    ensures (l + r).Keys == a + b && Restrict(l + r, a) == l && Restrict(l + r, b) == r
  {
  }

  lemma {:induction false} MergeRow(row: Row, a: set<Name>, b: set<Name>)
    requires row.Keys == a + b && a !! b
    ensures row == Restrict(row, a) + Restrict(row, b)
  {
  }

  /** Whether a pair of rows joins to `row`. */
  ghost predicate Joins(conditions: seq<(Expr, Expr)>, a: set<Name>, b: set<Name>, row: Row) {
    row.Keys == a + b && Matches(conditions, Restrict(row, a), Restrict(row, b))
  }

  lemma {:induction false} PairTimes(conditions: seq<(Expr, Expr)>, l: Row, r: Row, a: set<Name>, b: set<Name>,
                                     row: Row)
    requires l.Keys == a && r.Keys == b && a !! b
    ensures multiset(JoinPair(conditions, l, r))[row] ==
            if Joins(conditions, a, b, row) && Restrict(row, a) == l && Restrict(row, b) == r then 1 else 0
  {
    SplitRow(l, r, a, b);
    if row.Keys == a + b { MergeRow(row, a, b); }
  }

  lemma {:induction false} JoinRowTimes(conditions: seq<(Expr, Expr)>, l: Row, rs: seq<Row>, a: set<Name>,
                                        b: set<Name>, row: Row)
    requires l.Keys == a && AllIn(rs, b) && a !! b
    ensures multiset(JoinRow(conditions, l, rs))[row] ==
            if Joins(conditions, a, b, row) && Restrict(row, a) == l then multiset(rs)[Restrict(row, b)] else 0
  {
    if rs != [] {
      assert rs == [rs[0]] + rs[1..];
      JoinRowTimes(conditions, l, rs[1..], a, b, row);
      PairTimes(conditions, l, rs[0], a, b, row);
      assert multiset(JoinRow(conditions, l, rs)) ==
             multiset(JoinPair(conditions, l, rs[0])) + multiset(JoinRow(conditions, l, rs[1..]));
    }
  }

  lemma {:induction false} JoinTimes(conditions: seq<(Expr, Expr)>, ls: seq<Row>, rs: seq<Row>, a: set<Name>,
                                     b: set<Name>, row: Row)
    requires AllIn(ls, a) && AllIn(rs, b) && a !! b
    ensures multiset(JoinRows(conditions, ls, rs))[row] ==
            if Joins(conditions, a, b, row) then multiset(ls)[Restrict(row, a)] * multiset(rs)[Restrict(row, b)] else 0
  {
    if ls != [] {
      assert ls == [ls[0]] + ls[1..];
      JoinTimes(conditions, ls[1..], rs, a, b, row);
      JoinRowTimes(conditions, ls[0], rs, a, b, row);
      assert multiset(JoinRows(conditions, ls, rs)) ==
             multiset(JoinRow(conditions, ls[0], rs)) + multiset(JoinRows(conditions, ls[1..], rs));
      var n, m := multiset(ls[1..])[Restrict(row, a)], multiset(rs)[Restrict(row, b)];
      assert multiset(ls)[Restrict(row, a)] == if ls[0] == Restrict(row, a) then n + 1 else n;
      OneMore(n, m);
    }
  }

  lemma {:induction false} OneMore(n: nat, m: nat)
    ensures (n + 1) * m == n * m + m
  {
  }

  // ----- joins depend on bags only -----

  lemma {:induction false} JoinRowIsFlatMap(conditions: seq<(Expr, Expr)>, l: Row, rs: seq<Row>)
    ensures JoinRow(conditions, l, rs) == FlatMap(r => JoinPair(conditions, l, r), rs)
  {
    if rs != [] { JoinRowIsFlatMap(conditions, l, rs[1..]); }
  }

  lemma {:induction false} JoinIsFlatMap(conditions: seq<(Expr, Expr)>, ls: seq<Row>, rs: seq<Row>)
    ensures JoinRows(conditions, ls, rs) == FlatMap(l => JoinRow(conditions, l, rs), ls)
  {
    if ls != [] { JoinIsFlatMap(conditions, ls[1..], rs); }
  }

  lemma {:induction false} JoinBag(conditions: seq<(Expr, Expr)>, ls: seq<Row>, ls': seq<Row>, rs: seq<Row>,
                                   rs': seq<Row>)
    requires multiset(ls) == multiset(ls') && multiset(rs) == multiset(rs')
    ensures multiset(JoinRows(conditions, ls, rs)) == multiset(JoinRows(conditions, ls', rs'))
  {
    var f, g := l => JoinRow(conditions, l, rs), l => JoinRow(conditions, l, rs');
    forall l ensures multiset(f(l)) == multiset(g(l)) {
      var h := r => JoinPair(conditions, l, r);
      JoinRowIsFlatMap(conditions, l, rs);
      JoinRowIsFlatMap(conditions, l, rs');
      FlatMapPermute(h, rs, rs');
    }
    JoinIsFlatMap(conditions, ls, rs);
    JoinIsFlatMap(conditions, ls', rs');
    FlatMapPermute(f, ls, ls');
    FlatMapSame(f, g, ls');
  }

  lemma {:induction false} WithMarkIsFlatMap(rows: seq<Row>, mark: Name)
    ensures WithMark(rows, mark) == FlatMap((r: Row) => [r[mark := Bool(true)]], rows)
  {
    if rows != [] { WithMarkIsFlatMap(rows[1..], mark); }
  }

  lemma {:induction false} CollectedBag(accumulate: Accumulate, rows: seq<Row>, rows': seq<Row>, scope: set<Name>)
    requires multiset(rows) == multiset(rows')
    ensures multiset(Collected(accumulate, rows, scope)) == multiset(Collected(accumulate, rows', scope))
  {
    assert rows == [] <==> rows' == [] by { assert |multiset(rows)| == |rows| && |multiset(rows')| == |rows'|; }
    if accumulate.Marked? {
      WithMarkIsFlatMap(rows, accumulate.mark);
      WithMarkIsFlatMap(rows', accumulate.mark);
      FlatMapPermute((r: Row) => [r[accumulate.mark := Bool(true)]], rows, rows');
    }
  }

  lemma {:induction false} CountIsFlatMap(conditions: seq<(Expr, Expr)>, count: Name, ls: seq<Row>, rs: seq<Row>)
    ensures CountRows(conditions, count, ls, rs) == FlatMap(l => CountRow(conditions, count, l, rs), ls)
  {
    if ls != [] { CountIsFlatMap(conditions, count, ls[1..], rs); }
  }

  lemma {:induction false} CountRowBag(conditions: seq<(Expr, Expr)>, count: Name, l: Row, rs: seq<Row>, rs': seq<Row>)
    requires multiset(rs) == multiset(rs')
    ensures multiset(CountRow(conditions, count, l, rs)) == multiset(CountRow(conditions, count, l, rs'))
  {
    var a, b := JoinRow(conditions, l, rs), JoinRow(conditions, l, rs');
    JoinRowIsFlatMap(conditions, l, rs);
    JoinRowIsFlatMap(conditions, l, rs');
    FlatMapPermute(r => JoinPair(conditions, l, r), rs, rs');
    assert a == [] <==> b == [] by { assert |multiset(a)| == |a| && |multiset(b)| == |b|; }
  }

  lemma {:induction false} CountBag(conditions: seq<(Expr, Expr)>, count: Name, ls: seq<Row>, ls': seq<Row>,
                                    rs: seq<Row>, rs': seq<Row>)
    requires multiset(ls) == multiset(ls') && multiset(rs) == multiset(rs')
    ensures multiset(CountRows(conditions, count, ls, rs)) == multiset(CountRows(conditions, count, ls', rs'))
  {
    var f, g := l => CountRow(conditions, count, l, rs), l => CountRow(conditions, count, l, rs');
    forall l ensures multiset(f(l)) == multiset(g(l)) { CountRowBag(conditions, count, l, rs, rs'); }
    CountIsFlatMap(conditions, count, ls, rs);
    CountIsFlatMap(conditions, count, ls', rs');
    FlatMapPermute(f, ls, ls');
    FlatMapSame(f, g, ls');
  }

  // ----- every row of a plan has the plan's columns -----

  lemma {:induction false} FilterIn(rows: seq<Row>, p: Expr, scope: set<Name>)
    requires AllIn(rows, scope)
    ensures AllIn(FilterRows(rows, p), scope)
  {
    if rows != [] { FilterIn(rows[1..], p, scope); }
  }

  lemma {:induction false} JoinRowIn(conditions: seq<(Expr, Expr)>, l: Row, rs: seq<Row>, a: set<Name>, b: set<Name>)
    requires l.Keys == a && AllIn(rs, b)
    ensures AllIn(JoinRow(conditions, l, rs), a + b)
  {
    if rs != [] { JoinRowIn(conditions, l, rs[1..], a, b); }
  }

  lemma {:induction false} JoinIn(conditions: seq<(Expr, Expr)>, ls: seq<Row>, rs: seq<Row>, a: set<Name>, b: set<Name>)
    requires AllIn(ls, a) && AllIn(rs, b)
    ensures AllIn(JoinRows(conditions, ls, rs), a + b)
  {
    if ls != [] {
      JoinRowIn(conditions, ls[0], rs, a, b);
      JoinIn(conditions, ls[1..], rs, a, b);
    }
  }

  lemma {:induction false} WithMarkIn(rows: seq<Row>, mark: Name, scope: set<Name>)
    requires AllIn(rows, scope)
    ensures AllIn(WithMark(rows, mark), scope + {mark})
  {
    if rows != [] { WithMarkIn(rows[1..], mark, scope); }
  }

  lemma {:induction false} CollectedIn(accumulate: Accumulate, rows: seq<Row>, scope: set<Name>)
    requires AllIn(rows, scope)
    ensures AllIn(Collected(accumulate, rows, scope), scope + Marks(accumulate))
  {
    if accumulate.Marked? { WithMarkIn(rows, accumulate.mark, scope); }
    assert scope + {} == scope;
  }

  lemma {:induction false} CountIn(conditions: seq<(Expr, Expr)>, count: Name, ls: seq<Row>, rs: seq<Row>,
                                   a: set<Name>, b: set<Name>)
    requires AllIn(ls, a) && AllIn(rs, b) && count in b && b <= a + {count}
    ensures AllIn(CountRows(conditions, count, ls, rs), a + b)
  {
    if ls != [] {
      JoinRowIn(conditions, ls[0], rs, a, b);
      CountIn(conditions, count, ls[1..], rs, a, b);
      assert ls[0][count := ZERO].Keys == a + b;
    }
  }

  lemma {:induction false} ScanIn(node: Expr, properties: seq<Expr>, ts: seq<Tuple>)
    requires node.Property? && forall i :: 0 <= i < |properties| ==> properties[i].Property?
    ensures AllIn(ScanRows(node, properties, ts), {NameOf(node)} + Names(properties))
  {
    if ts != [] { ScanIn(node, properties, ts[1..]); }
  }

  lemma {:induction false} ScanTablesIn(db: Database, node: Expr, properties: seq<Expr>, tables: seq<nat>,
                                        pushed: Pushed)
    requires node.Property? && forall i :: 0 <= i < |properties| ==> properties[i].Property?
    requires forall i :: 0 <= i < |tables| ==> tables[i] in db.tables
    ensures AllIn(ScanTables(db, node, properties, tables, pushed), {NameOf(node)} + Names(properties))
  {
    if tables != [] {
      ScanIn(node, properties, Kept(db, tables[0], pushed, 0));
      ScanTablesIn(db, node, properties, tables[1..], pushed);
    }
  }

  lemma {:induction false} RowsIn(db: Database, op: Op)
    requires PlanOk(db, op)
    ensures AllIn(Rows(db, op), Scope(op))
  {
    match op
    case Scan(node, tables, properties, TableScan, pushed) => ScanTablesIn(db, node, properties, tables, pushed);
    case Scan(node, tables, properties, PrimaryKeyScan(key), pushed) =>
      ScanIn(node, properties, Lookup(db.tables[tables[0]], Evaluate(key, map[])));
    case Filter(p, c) => RowsIn(db, c); FilterIn(Rows(db, c), p, Scope(c));
    case CrossProduct(accumulate, l, r) =>
      RowsIn(db, l);
      RowsIn(db, r);
      CollectedIn(accumulate, Rows(db, r), Scope(r));
      JoinIn([], Rows(db, l), Collected(accumulate, Rows(db, r), Scope(r)), Scope(l), Scope(r) + Marks(accumulate));
    case HashJoin(conditions, l, r) =>
      RowsIn(db, l); RowsIn(db, r); JoinIn(conditions, Rows(db, l), Rows(db, r), Scope(l), Scope(r));
    case CountJoin(conditions, count, l, r) =>
      RowsIn(db, l); RowsIn(db, r); CountIn(conditions, count, Rows(db, l), Rows(db, r), Scope(l), Scope(r));
    case OtherJoin(_, columns, join, l, r) =>
    case EmptyResult(_) =>
    case Other(_, _, pushed, columns, run, inputs) =>
  }

  lemma {:induction false} TimesIn(db: Database, op: Op, row: Row)
    requires PlanOk(db, op)
    ensures row.Keys != Scope(op) ==> Times(db, op, row) == 0
  {
    RowsIn(db, op);
    if Times(db, op, row) != 0 {
      assert row in multiset(Rows(db, op));
      assert row in Rows(db, op);
    }
  }

  // ----- evaluating on one side of a product -----

  /** As far as an evaluation goes into an expression: what one side of a product can compute is not a
      column of the other. */
  ghost predicate Clear(a: set<Name>, b: set<Name>, e: Expr) {
    && !(Evaluable(a, e) && NameOf(e) in b) && !(Evaluable(b, e) && NameOf(e) in a)
    && (NameOf(e) in a + b ||
        match e
        case Equals(_, l, r) => Clear(a, b, l) && Clear(a, b, r)
        case Function(_, _, args, _) => forall i :: 0 <= i < |args| ==> Clear(a, b, args[i])
        case _ => true)
  }

  lemma {:induction false} ClearSym(a: set<Name>, b: set<Name>, e: Expr)
    requires Clear(a, b, e)
    ensures Clear(b, a, e)
  {
    if NameOf(e) !in a + b {
      match e
      case Equals(_, l, r) => ClearSym(a, b, l); ClearSym(a, b, r);
      case Function(_, _, args, _) =>
        forall i | 0 <= i < |args| ensures Clear(b, a, args[i]) { ClearSym(a, b, args[i]); }
      case _ =>
    }
  }

  lemma {:induction false} EvaluateSide(a: set<Name>, b: set<Name>, e: Expr, row: Row)
    requires Clear(a, b, e) && row.Keys == a + b && Evaluable(a, e)
    ensures Evaluate(e, row) == Evaluate(e, Restrict(row, a))
  {
    assert NameOf(e) !in b;
    if NameOf(e) in a {
    } else {
      match e
      case Equals(_, l, r) =>
        EvaluateSide(a, b, l, row);
        EvaluateSide(a, b, r, row);
      case Function(_, _, args, body) =>
        forall i | 0 <= i < |args| ensures Evaluate(args[i], row) == Evaluate(args[i], Restrict(row, a)) {
          EvaluateSide(a, b, args[i], row);
        }
        assert seq(|args|, i requires 0 <= i < |args| => Evaluate(args[i], row)) ==
               seq(|args|, i requires 0 <= i < |args| => Evaluate(args[i], Restrict(row, a)));
      case _ =>
    }
  }

  lemma {:induction false} ExprOkSide(keys: map<string, string>, a: set<Name>, b: set<Name>, e: Expr)
    requires Clear(a, b, e) && Evaluable(a, e) && ExprOk(keys, a + b, e)
    ensures ExprOk(keys, a, e)
  {
    assert NameOf(e) !in b;
    if NameOf(e) !in a {
      match e
      case Equals(_, l, r) =>
        ExprOkSide(keys, a, b, l);
        ExprOkSide(keys, a, b, r);
      case Function(_, _, args, _) =>
        forall i | 0 <= i < |args| ensures ExprOk(keys, a, args[i]) { ExprOkSide(keys, a, b, args[i]); }
      case _ =>
    }
  }

  lemma {:induction false} AllTrueSide(a: set<Name>, b: set<Name>, ps: seq<Expr>, row: Row)
    requires row.Keys == a + b && forall i :: 0 <= i < |ps| ==> Clear(a, b, ps[i]) && Evaluable(a, ps[i])
    ensures AllTrue(ps, row) <==> AllTrue(ps, Restrict(row, a))
  {
    forall i | 0 <= i < |ps| ensures True(ps[i], row) <==> True(ps[i], Restrict(row, a)) {
      EvaluateSide(a, b, ps[i], row);
    }
  }
}
