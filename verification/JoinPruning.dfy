/** Removing joins with a scan that only delivers the node ids the other side already has, and the
    two passes together. */
module JoinPruning {
  import opened QueryPlan
  import opened PlanFacts
  import opened ScanFacts
  import opened FilterPushDown
  import opened PushedPlan
  import opened PushDownOptimizer

  predicate IsTrivial(op: Op) {
    op.Scan? && op.properties == []
  }

  /** Which side a join is reduced to, if any. */
  function ReplaceJoin(op: Op): Op
    requires op.HashJoin? || op.CountJoin?
  {
    if IsTrivial(op.right) then op.left
    else if IsTrivial(op.left) then op.right
    else op
  }

  /** Bottom-up over the whole plan. */
  function Pruned(op: Op): Op {
    match op
    case Scan(_, _, _, _, _) => op
    case EmptyResult(_) => op
    case Filter(p, c) => Filter(p, Pruned(c))
    case CrossProduct(accumulate, l, r) => CrossProduct(accumulate, Pruned(l), Pruned(r))
    case HashJoin(conditions, l, r) => ReplaceJoin(HashJoin(conditions, Pruned(l), Pruned(r)))
    case CountJoin(conditions, count, l, r) => ReplaceJoin(CountJoin(conditions, count, Pruned(l), Pruned(r)))
    case OtherJoin(joinType, columns, join, l, r) => OtherJoin(joinType, columns, join, Pruned(l), Pruned(r))
    case Other(kind, stored, hints, columns, run, inputs) =>
      Other(kind, stored, hints, columns, run, seq(|inputs|, i requires 0 <= i < |inputs| => Pruned(inputs[i])))
  }

  // ----- when a join with ids changes nothing -----

  ghost predicate OnNode(conditions: seq<(Expr, Expr)>, node: Name) {
    conditions != [] && forall i :: 0 <= i < |conditions| ==>
        NameOf(conditions[i].0) == node && NameOf(conditions[i].1) == node
  }

  /** Every row of the kept side has a node id, and the scan delivers that id exactly once. */
  ghost predicate HasIds(db: Database, side: Op, scan: Op)
    requires PlanOk(db, side) && PlanOk(db, scan)
  {
    scan.Scan? && NameOf(scan.node) in Scope(side) && IdsOnce(Rows(db, side), Rows(db, scan), NameOf(scan.node))
  }

  ghost predicate IdsOnce(rows: seq<Row>, ids: seq<Row>, node: Name) {
    forall i :: 0 <= i < |rows| ==>
      node in rows[i] && !rows[i][node].Null? && multiset(ids)[map[node := rows[i][node]]] == 1
  }

  /** Every id of a scan is a key of the other side. */
  ghost predicate AllKeys(ids: seq<Row>, rows: seq<Row>, node: Name) {
    forall i :: 0 <= i < |ids| ==> node in ids[i] && IsKey(ids[i][node], rows, node)
  }

  ghost predicate IsKey(id: Value, rows: seq<Row>, node: Name) {
    exists k :: 0 <= k < |rows| && node in rows[k] && rows[k][node] == id
  }

  /** What the pass takes for granted of the joins it removes. */
  ghost predicate PruneOk(db: Database, op: Op)
    requires PlanOk(db, op)
  {
    match op
    case Scan(_, _, _, _, _) => true
    case EmptyResult(_) => true
    case Filter(_, c) => PruneOk(db, c)
    case CrossProduct(_, l, r) => PruneOk(db, l) && PruneOk(db, r)
    case HashJoin(conditions, l, r) =>
      && PruneOk(db, l) && PruneOk(db, r)
      && (IsTrivial(Pruned(r)) ==>
          OnNode(conditions, NameOf(Pruned(r).node)) && PlanOk(db, Pruned(r)) && HasIds(db, l, Pruned(r)))
      && (!IsTrivial(Pruned(r)) && IsTrivial(Pruned(l)) ==>
            OnNode(conditions, NameOf(Pruned(l).node)) && PlanOk(db, Pruned(l)) && HasIds(db, r, Pruned(l)))
    case CountJoin(conditions, _, l, r) =>
      && PruneOk(db, l) && PruneOk(db, r)
      && (IsTrivial(Pruned(l)) ==>
            && OnNode(conditions, NameOf(Pruned(l).node)) && PlanOk(db, Pruned(l)) && HasIds(db, r, Pruned(l))
            && AllKeys(Rows(db, Pruned(l)), Rows(db, r), NameOf(Pruned(l).node)))
    case OtherJoin(_, _, _, l, r) => PruneOk(db, l) && PruneOk(db, r)
    case Other(_, _, _, _, _, inputs) => forall i :: 0 <= i < |inputs| ==> PruneOk(db, inputs[i])
  }

  lemma {:induction false} OnNodeMatches(conditions: seq<(Expr, Expr)>, node: Name, l: Row, r: Row)
    requires OnNode(conditions, node) && node in l && node in r
    ensures Matches(conditions, l, r) <==> !l[node].Null? && l[node] == r[node]
  {
    if Matches(conditions, l, r) {
      assert KeyMatches(conditions[0], l, r);
    }
  }

  lemma {:induction false} IdRow(id: Row, node: Name, v: Value)
    requires id.Keys == {node}
    ensures id == map[node := v] <==> id[node] == v
  {
  }

  /** A matching id adds nothing to a row. */
  lemma {:induction false} IdAddsNothing(l: Row, id: Row, node: Name)
    requires id.Keys == {node} && node in l && l[node] == id[node]
    ensures l + id == l && id + l == l
  {
  }

  lemma {:induction false} PairLeft(conditions: seq<(Expr, Expr)>, node: Name, l: Row, id: Row)
    requires OnNode(conditions, node) && node in l && !l[node].Null? && id.Keys == {node}
    ensures JoinPair(conditions, l, id) == if id == map[node := l[node]] then [l] else []
  {
    OnNodeMatches(conditions, node, l, id);
    IdRow(id, node, l[node]);
    if l[node] == id[node] { IdAddsNothing(l, id, node); }
  }

  lemma {:induction false} PairRight(conditions: seq<(Expr, Expr)>, node: Name, id: Row, r: Row)
    requires OnNode(conditions, node) && node in r && !r[node].Null? && id.Keys == {node}
    ensures JoinPair(conditions, id, r) == if r[node] == id[node] then [r] else []
  {
    OnNodeMatches(conditions, node, id, r);
    if r[node] == id[node] { IdAddsNothing(r, id, node); }
  }

  /** A row comes out once for every copy of its id. */
  lemma {:induction false} KeepLeft(conditions: seq<(Expr, Expr)>, node: Name, l: Row, ids: seq<Row>)
    requires OnNode(conditions, node) && node in l && !l[node].Null? && AllIn(ids, {node})
    ensures JoinRow(conditions, l, ids) == seq(multiset(ids)[map[node := l[node]]], _ => l)
  {
    if ids != [] {
      KeepLeft(conditions, node, l, ids[1..]);
      PairLeft(conditions, node, l, ids[0]);
      assert ids == [ids[0]] + ids[1..];
    }
  }

  lemma {:induction false} JoinKeepsLeft(conditions: seq<(Expr, Expr)>, node: Name, rows: seq<Row>, ids: seq<Row>)
    requires OnNode(conditions, node) && IdsOnce(rows, ids, node) && AllIn(ids, {node})
    ensures multiset(JoinRows(conditions, rows, ids)) == multiset(rows)
  {
    if rows != [] {
      assert rows == [rows[0]] + rows[1..];
      JoinKeepsLeft(conditions, node, rows[1..], ids);
      KeepLeft(conditions, node, rows[0], ids);
      assert JoinRow(conditions, rows[0], ids) == [rows[0]];
    }
  }

  lemma {:induction false} KeepRight(conditions: seq<(Expr, Expr)>, node: Name, id: Row, rows: seq<Row>, row: Row)
    requires OnNode(conditions, node) && id.Keys == {node} &&
             forall i :: 0 <= i < |rows| ==> node in rows[i] && !rows[i][node].Null?
    ensures multiset(JoinRow(conditions, id, rows))[row] ==
            if node in row && row[node] == id[node] then multiset(rows)[row] else 0
  {
    if rows != [] {
      assert rows == [rows[0]] + rows[1..];
      KeepRight(conditions, node, id, rows[1..], row);
      PairRight(conditions, node, id, rows[0]);
      assert multiset(JoinRow(conditions, id, rows)) ==
             multiset(JoinPair(conditions, id, rows[0])) + multiset(JoinRow(conditions, id, rows[1..]));
    }
  }

  ghost predicate AllHave(rows: seq<Row>, node: Name) {
    forall i :: 0 <= i < |rows| ==> node in rows[i] && !rows[i][node].Null?
  }

  lemma {:induction false} JoinFirst(conditions: seq<(Expr, Expr)>, ls: seq<Row>, rs: seq<Row>, row: Row)
    requires ls != []
    ensures multiset(JoinRows(conditions, ls, rs))[row] ==
            multiset(JoinRow(conditions, ls[0], rs))[row] + multiset(JoinRows(conditions, ls[1..], rs))[row]
  {
    var a, b := JoinRow(conditions, ls[0], rs), JoinRows(conditions, ls[1..], rs);
    assert multiset(a + b) == multiset(a) + multiset(b);
  }

  /** How many ids match a row of the kept side. */
  lemma {:induction false} JoinKeepsRightTimes(conditions: seq<(Expr, Expr)>, node: Name, ids: seq<Row>,
                                               rows: seq<Row>, row: Row)
    requires OnNode(conditions, node) && AllIn(ids, {node}) && AllHave(rows, node) && node in row
    ensures multiset(JoinRows(conditions, ids, rows))[row] ==
            multiset(ids)[map[node := row[node]]] * multiset(rows)[row]
  {
    if ids != [] {
      var id := map[node := row[node]];
      JoinKeepsRightTimes(conditions, node, ids[1..], rows, row);
      JoinFirst(conditions, ids, rows, row);
      KeepRight(conditions, node, ids[0], rows, row);
      IdRow(ids[0], node, row[node]);
      FirstTimes(ids, id, multiset(rows)[row]);
    }
  }

  lemma {:induction false} MultisetFirst(s: seq<Row>, x: Row)
    requires s != []
    ensures multiset(s)[x] == (if s[0] == x then 1 else 0) + multiset(s[1..])[x]
  {
    assert s == [s[0]] + s[1..];
  }

  lemma {:induction false} FirstTimes(s: seq<Row>, x: Row, m: nat)
    requires s != []
    ensures multiset(s)[x] * m == (if s[0] == x then m else 0) + multiset(s[1..])[x] * m
  {
    MultisetFirst(s, x);
    OneMoreTimes(multiset(s[1..])[x], m);
  }

  lemma {:induction false} OneMoreTimes(n: nat, m: nat)
    ensures (1 + n) * m == m + n * m
  {
  }

  lemma {:induction false} JoinKeepsRight(conditions: seq<(Expr, Expr)>, node: Name, ids: seq<Row>, rows: seq<Row>,
                                          scope: set<Name>)
    requires OnNode(conditions, node) && IdsOnce(rows, ids, node) && AllIn(ids, {node}) && AllIn(rows, scope) &&
             node in scope
    ensures multiset(JoinRows(conditions, ids, rows)) == multiset(rows)
  {
    JoinIn(conditions, ids, rows, {node}, scope);
    assert {node} + scope == scope;
    forall row ensures multiset(JoinRows(conditions, ids, rows))[row] == multiset(rows)[row] {
      if row.Keys != scope {
        NotIn(rows, scope, row);
        NotIn(JoinRows(conditions, ids, rows), scope, row);
      } else {
        JoinKeepsRightTimes(conditions, node, ids, rows, row);
        assert row in rows <==> multiset(rows)[row] > 0;
      }
    }
  }

  lemma {:induction false} NotIn(rows: seq<Row>, scope: set<Name>, row: Row)
    requires AllIn(rows, scope) && row.Keys != scope
    ensures multiset(rows)[row] == 0
  {
    assert row !in rows;
  }

  // ----- the pass -----

  /** The build side only has ids: the join is its probe side. */
  lemma {:induction false} BuildPruned(db: Database, op: Op, scan: Op)
    requires op.HashJoin? && PlanOk(db, op) && PlanOk(db, scan) && IsTrivial(scan) &&
             OnNode(op.conditions, NameOf(scan.node))
    requires multiset(Rows(db, scan)) == multiset(Rows(db, op.right)) && HasIds(db, op.left, scan)
    ensures multiset(Rows(db, op)) == multiset(Rows(db, op.left))
  {
    RowsIn(db, scan);
    assert Scope(scan) == {NameOf(scan.node)};
    JoinBag(op.conditions, Rows(db, op.left), Rows(db, op.left), Rows(db, scan), Rows(db, op.right));
    JoinKeepsLeft(op.conditions, NameOf(scan.node), Rows(db, op.left), Rows(db, scan));
  }

  /** The probe side only has ids: the join is its build side. */
  lemma {:induction false} ProbePruned(db: Database, op: Op, scan: Op)
    requires op.HashJoin? && PlanOk(db, op) && PlanOk(db, scan) && IsTrivial(scan) &&
             OnNode(op.conditions, NameOf(scan.node))
    requires multiset(Rows(db, scan)) == multiset(Rows(db, op.left)) && HasIds(db, op.right, scan)
    ensures multiset(Rows(db, op)) == multiset(Rows(db, op.right))
  {
    RowsIn(db, scan);
    RowsIn(db, op.right);
    assert Scope(scan) == {NameOf(scan.node)};
    JoinBag(op.conditions, Rows(db, scan), Rows(db, op.left), Rows(db, op.right), Rows(db, op.right));
    JoinKeepsRight(op.conditions, NameOf(scan.node), Rows(db, scan), Rows(db, op.right), Scope(op.right));
  }

  lemma {:induction false} BuildReplaced(db: Database, op: Op, l: Op, r: Op)
    requires op.HashJoin? && PlanOk(db, op) && IsTrivial(r) && OnNode(op.conditions, NameOf(r.node))
    requires Restricts(db, l, op.left, []) && Restricts(db, r, op.right, []) && HasIds(db, op.left, r)
    ensures Restricts(db, l, op, [])
  {
    SameBag(db, l, op.left);
    SameBag(db, r, op.right);
    BuildPruned(db, op, r);
    assert Scope(op) == Scope(l);
    SameBags(db, l, op);
  }

  lemma {:induction false} ProbeReplaced(db: Database, op: Op, l: Op, r: Op)
    requires op.HashJoin? && PlanOk(db, op) && IsTrivial(l) && OnNode(op.conditions, NameOf(l.node))
    requires Restricts(db, l, op.left, []) && Restricts(db, r, op.right, []) && HasIds(db, op.right, l)
    ensures Restricts(db, r, op, [])
  {
    SameBag(db, l, op.left);
    SameBag(db, r, op.right);
    ProbePruned(db, op, l);
    assert Scope(op) == Scope(r);
    SameBags(db, r, op);
  }

  lemma {:induction false} JoinPruned(db: Database, op: Op)
    requires op.HashJoin? && PlanOk(db, op) && PruneOk(db, op)
    requires Restricts(db, Pruned(op.left), op.left, []) && Restricts(db, Pruned(op.right), op.right, [])
    ensures Restricts(db, Pruned(op), op, [])
  {
    var l, r := Pruned(op.left), Pruned(op.right);
    if IsTrivial(r) {
      BuildReplaced(db, op, l, r);
    } else if IsTrivial(l) {
      ProbeReplaced(db, op, l, r);
    } else {
      SameInputs(db, op, [l, r]);
    }
  }

  // ----- count joins -----

  /** Every id of the probe side is one row: a match if it is a key, and otherwise its count of zero. */
  lemma {:induction false} CountKeepsKeys(conditions: seq<(Expr, Expr)>, count: Name, node: Name, ids: seq<Row>,
                                          rows: seq<Row>)
    requires OnNode(conditions, node) && AllIn(ids, {node}) && AllHave(rows, node) && AllKeys(ids, rows, node)
    ensures CountRows(conditions, count, ids, rows) == JoinRows(conditions, ids, rows)
  {
    if ids != [] {
      forall i | 0 <= i < |ids[1..]| ensures node in ids[1..][i] && IsKey(ids[1..][i][node], rows, node) {
        assert ids[1..][i] == ids[i + 1];
      }
      CountKeepsKeys(conditions, count, node, ids[1..], rows);
      var k :| 0 <= k < |rows| && node in rows[k] && rows[k][node] == ids[0][node];
      KeepRight(conditions, node, ids[0], rows, rows[k]);
      assert rows[k] in multiset(rows);
    }
  }

  lemma {:induction false} NoMatches(conditions: seq<(Expr, Expr)>, node: Name, id: Row, rows: seq<Row>)
    requires OnNode(conditions, node) && id.Keys == {node} && AllHave(rows, node) && !IsKey(id[node], rows, node)
    ensures JoinRow(conditions, id, rows) == []
  {
    if rows != [] {
      PairRight(conditions, node, id, rows[0]);
      forall k | 0 <= k < |rows[1..]| ensures rows[1..][k][node] != id[node] { assert rows[1..][k] == rows[k + 1]; }
      NoMatches(conditions, node, id, rows[1..]);
    }
  }

  /** An id that is not a key comes out with count zero. */
  lemma {:induction false} CountHasZero(conditions: seq<(Expr, Expr)>, count: Name, node: Name, ids: seq<Row>,
                                        rows: seq<Row>, i: nat)
    requires OnNode(conditions, node) && AllIn(ids, {node}) && AllHave(rows, node)
    requires i < |ids| && !IsKey(ids[i][node], rows, node)
    ensures ids[i][count := ZERO] in CountRows(conditions, count, ids, rows)
  {
    if i > 0 {
      assert ids[1..][i - 1] == ids[i];
      CountHasZero(conditions, count, node, ids[1..], rows, i - 1);
    } else {
      NoMatches(conditions, node, ids[0], rows);
    }
  }

  /** A count join with a scan of ids for probe side has the bag of its build side exactly if every id is
      a key there. */
  lemma {:induction false} CountIsBuildIff(conditions: seq<(Expr, Expr)>, count: Name, node: Name, ids: seq<Row>,
                                           rows: seq<Row>, scope: set<Name>)
    requires OnNode(conditions, node) && AllIn(ids, {node}) && AllIn(rows, scope) && node in scope && count != node
    requires IdsOnce(rows, ids, node)
    ensures multiset(CountRows(conditions, count, ids, rows)) == multiset(rows) <==> AllKeys(ids, rows, node)
  {
    if AllKeys(ids, rows, node) {
      CountKeepsKeys(conditions, count, node, ids, rows);
      JoinKeepsRight(conditions, node, ids, rows, scope);
    } else {
      var i :| 0 <= i < |ids| && !IsKey(ids[i][node], rows, node);
      var row := ids[i][count := ZERO];
      CountHasZero(conditions, count, node, ids, rows, i);
      assert row[node] == ids[i][node];
      assert row !in rows;
      assert row in multiset(CountRows(conditions, count, ids, rows)) && row !in multiset(rows);
    }
  }

  /** The build side has a count, so it is not a scan of ids only. */
  lemma {:induction false} BuildCounts(db: Database, op: Op, r: Op)
    requires op.CountJoin? && PlanOk(db, op) && Restricts(db, r, op.right, [])
    ensures !IsTrivial(r)
  {
  }

  /** A count join whose probe side is a scan of ids only is replaced by its build side. That keeps its
      bag exactly if every id of the scan is a key of the build side: the others are due with count zero. */
  lemma {:induction false} CountJoinKeptIff(db: Database, op: Op)
    requires op.CountJoin? && PlanOk(db, op) && PruneOk(db, op.left) && PruneOk(db, op.right)
    requires var scan := Pruned(op.left);
             && IsTrivial(scan) && PlanOk(db, scan)
             && OnNode(op.conditions, NameOf(scan.node)) && HasIds(db, op.right, scan)
    ensures Restricts(db, Pruned(op), op, []) <==>
            AllKeys(Rows(db, Pruned(op.left)), Rows(db, op.right), NameOf(Pruned(op.left).node))
  {
    PruneKeeps(db, op.left);
    PruneKeeps(db, op.right);
    CountReplaced(db, op, Pruned(op.left), Pruned(op.right));
  }

  lemma {:induction false} CountReplaced(db: Database, op: Op, l: Op, r: Op)
    requires op.CountJoin? && PlanOk(db, op) && IsTrivial(l) && OnNode(op.conditions, NameOf(l.node))
    requires Restricts(db, l, op.left, []) && Restricts(db, r, op.right, []) && HasIds(db, op.right, l)
    ensures !IsTrivial(r)
    ensures Restricts(db, r, op, []) <==> AllKeys(Rows(db, l), Rows(db, op.right), NameOf(l.node))
  {
    var node, rows := NameOf(l.node), Rows(db, op.right);
    BuildCounts(db, op, r);
    SameBag(db, l, op.left);
    SameBag(db, r, op.right);
    RowsIn(db, l);
    RowsIn(db, op.right);
    assert Scope(l) == {node};
    CountBag(op.conditions, op.count, Rows(db, l), Rows(db, op.left), rows, rows);
    CountIsBuildIff(op.conditions, op.count, node, Rows(db, l), rows, Scope(op.right));
    assert Scope(op) == Scope(r);
    if multiset(Rows(db, r)) == multiset(Rows(db, op)) { SameBags(db, r, op); }
    if Restricts(db, r, op, []) { SameBag(db, r, op); }
  }

  lemma {:induction false} CountPruned(db: Database, op: Op)
    requires op.CountJoin? && PlanOk(db, op) && PruneOk(db, op)
    requires Restricts(db, Pruned(op.left), op.left, []) && Restricts(db, Pruned(op.right), op.right, [])
    ensures Restricts(db, Pruned(op), op, [])
  {
    var l, r := Pruned(op.left), Pruned(op.right);
    BuildCounts(db, op, r);
    if IsTrivial(l) {
      CountReplaced(db, op, l, r);
    } else {
      SameInputs(db, op, [l, r]);
    }
  }

  // ----- other operators -----

  lemma {:induction false} FilterPruned(db: Database, op: Op, c: Op)
    requires op.Filter? && PlanOk(db, op) && Restricts(db, c, op.child, [])
    ensures Restricts(db, Filter(op.predicate_, c), op, [])
  {
    forall row ensures Times(db, Filter(op.predicate_, c), row) == Times(db, op, row) {
      FilterTimes(Rows(db, c), op.predicate_, row);
      FilterTimes(Rows(db, op.child), op.predicate_, row);
      assert Times(db, c, row) == Times(db, op.child, row);
    }
  }

  /** Pruning keeps the bag of every plan whose removed joins only looked up ids that are there once. */
  lemma {:induction false} PruneKeeps(db: Database, op: Op)
    requires PlanOk(db, op) && PruneOk(db, op)
    ensures Restricts(db, Pruned(op), op, [])
  {
    match op
    case Scan(_, _, _, _, _) => RestrictsSelf(db, op);
    case EmptyResult(_) => RestrictsSelf(db, op);
    case Filter(p, c) =>
      PruneKeeps(db, c);
      FilterPruned(db, op, Pruned(c));
    case CrossProduct(_, l, r) =>
      PruneKeeps(db, l);
      PruneKeeps(db, r);
      SameSides(db, op, Pruned(l), Pruned(r));
    case HashJoin(_, l, r) =>
      PruneKeeps(db, l);
      PruneKeeps(db, r);
      JoinPruned(db, op);
    case CountJoin(_, _, l, r) =>
      PruneKeeps(db, l);
      PruneKeeps(db, r);
      CountPruned(db, op);
    case OtherJoin(_, _, _, l, r) =>
      PruneKeeps(db, l);
      PruneKeeps(db, r);
      SameInputs(db, op, [Pruned(l), Pruned(r)]);
    case Other(_, _, _, _, _, inputs) =>
      var inputs' := seq(|inputs|, i requires 0 <= i < |inputs| => Pruned(inputs[i]));
      forall i | 0 <= i < |inputs| ensures Restricts(db, inputs'[i], inputs[i], []) { PruneKeeps(db, inputs[i]); }
      SameInputs(db, op, inputs');
  }

  /** Pruning keeps the scopes, so a predicate that was clear stays so. */
  lemma {:induction false} PrunedClear(db: Database, op: Op, p: Expr)
    requires PlanOk(db, op) && PruneOk(db, op) && ClearBelow(op, p)
    ensures ClearBelow(Pruned(op), p)
  {
    match op
    case Filter(_, c) => PrunedClear(db, c, p);
    case CrossProduct(_, l, r) =>
      PrunedClear(db, l, p);
      PrunedClear(db, r, p);
      PruneKeeps(db, l);
      PruneKeeps(db, r);
    case HashJoin(_, l, r) => PrunedClear(db, l, p); PrunedClear(db, r, p);
    case CountJoin(_, _, l, r) => PrunedClear(db, l, p); PrunedClear(db, r, p);
    case OtherJoin(_, _, _, l, r) => PrunedClear(db, l, p); PrunedClear(db, r, p);
    case _ =>
  }

  lemma {:induction false} PrunedPlanned(db: Database, op: Op)
    requires PlanOk(db, op) && PruneOk(db, op) && Planned(op)
    ensures Planned(Pruned(op))
  {
    match op
    case Filter(p, c) => PrunedPlanned(db, c); PrunedClear(db, c, p);
    case CrossProduct(_, l, r) => PrunedPlanned(db, l); PrunedPlanned(db, r);
    case HashJoin(_, l, r) => PrunedPlanned(db, l); PrunedPlanned(db, r);
    case CountJoin(_, _, l, r) => PrunedPlanned(db, l); PrunedPlanned(db, r);
    case OtherJoin(_, _, _, l, r) => PrunedPlanned(db, l); PrunedPlanned(db, r);
    case Other(_, _, _, _, _, inputs) =>
      forall i | 0 <= i < |inputs| ensures Planned(Pruned(inputs[i])) { PrunedPlanned(db, inputs[i]); }
    case _ =>
  }

  /** Both passes in the order in which the optimizer runs them. The result has the bag of the pruned plan
      pushed down, and that of the plan itself where pushing down brings in no rows of nulls. */
  method Optimize(ghost db: Database, op: Op, zoneMaps: bool, converts: (Expr, Expr) -> bool) returns (res: Op)
    requires PlanOk(db, op) && Planned(op) && PruneOk(db, op)
    ensures PlanOk(db, Pruned(op)) && Restricts(db, res, PushedDown(Pruned(op), NONE), [])
    ensures PlanOk(db, res) && Scope(res) == Scope(op)
    ensures PushOk(db, Pruned(op), NONE) ==> multiset(Rows(db, res)) == multiset(Rows(db, op))
  {
    var pruned := Pruned(op);
    PruneKeeps(db, op);
    PrunedPlanned(db, op);
    PushedShape(db, pruned, NONE);
    var optimizer := new FilterPushDownOptimizer(zoneMaps, converts, NONE);
    res := optimizer.VisitOperator(db, pruned);
    if PushOk(db, pruned, NONE) { SameBag(db, res, pruned); }
    SameBag(db, pruned, op);
  }

  /** The first pass leaves the plan alone to which the second one adds a row. */
  lemma {:induction false} ExampleUnpruned()
    ensures Pruned(ExamplePlan()) == ExamplePlan()
    ensures PlanOk(ExampleDatabase(), ExamplePlan()) && PruneOk(ExampleDatabase(), ExamplePlan())
  {
    ExampleReady();
  }

  // ----- a node without edges -----

  /** A probe side of one id and an empty build side: the id is due with count zero. */
  lemma {:induction false} OneCounted(db: Database, op: Op, id: Row)
    requires op.CountJoin? && PlanOk(db, op) && Rows(db, op.left) == [id] && Rows(db, op.right) == []
    ensures Rows(db, op) == [id[op.count := ZERO]]
  {
    assert [id][1..] == [];
    assert CountRows(op.conditions, op.count, [id], []) ==
           CountRow(op.conditions, op.count, id, []) + CountRows(op.conditions, op.count, [], []);
  }

  lemma {:induction false} CountScan()
    ensures var db, op := CountDatabase(), CountPlan();
            PlanOk(db, op.left) && Rows(db, op.left) == [map[Prop("a", "_ID") := Data("0")]]
  {
    var db, op, t := CountDatabase(), CountPlan(), Tuple(Data("0"), map["key" := Data("k")]);
    ScanOne(db, op.left.node, [], 0, t);
    assert ScanRow(op.left.node, [], t) == map[Prop("a", "_ID") := Data("0")];
  }

  /** Counting the edges of every node: the one node has none, and its count of zero is lost. */
  lemma {:induction false} CountLost()
    ensures var db, op := CountDatabase(), CountPlan();
            && PlanOk(db, op) && PlanOk(db, Pruned(op))
            && Rows(db, op) == [map[Prop("a", "_ID") := Data("0"), Text("count") := ZERO]] && Rows(db, Pruned(op)) == []
  {
    CountScan();
    CountBuild();
    CountPlanPruned();
    OneCounted(CountDatabase(), CountPlan(), map[Prop("a", "_ID") := Data("0")]);
  }

  lemma {:induction false} CountBuild()
    ensures var db, op := CountDatabase(), CountPlan();
            PlanOk(db, op) && PlanOk(db, op.right) && Rows(db, op.right) == []
  {
    CountScan();
    assert Scope(CountPlan().left) == {Prop("a", "_ID")};
  }

  lemma {:induction false} CountPlanPruned()
    ensures Pruned(CountPlan()) == CountPlan().right
  {
    var op := CountPlan();
    var extend := op.right.inputs[0];
    assert Pruned(op.left) == op.left;
    assert seq(1, i requires 0 <= i < 1 => Pruned(extend.inputs[i])) == extend.inputs;
    assert seq(1, i requires 0 <= i < 1 => Pruned(op.right.inputs[i])) == op.right.inputs;
  }

  function CountDatabase(): Database {
    Database(map[0 := Table([[Tuple(Data("0"), map["key" := Data("k")])]], "key")], (_, _, _) => false, map[])
  }

  /** The ids of a table, and the edges of each as an aggregation over an extend counts them: there are none. */
  function CountPlan(): Op {
    var id := Property("a", "_ID", false);
    var scan := Scan(id, [0], [], TableScan, []);
    var extend := Other(Extend(false), [], [], {Prop("a", "_ID"), Prop("b", "_ID")}, (_, _) => [], [scan]);
    var aggregate := Other(Unhandled, [], [], {Prop("a", "_ID"), Text("count")}, (_, _) => [], [extend]);
    CountJoin([(id, id)], Text("count"), scan, aggregate)
  }
}
