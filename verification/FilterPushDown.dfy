/** Pushing filters down a logical plan: into both sides of cross products, which become hash joins
    where an equality allows it, and into scans, which become index lookups. */
module FilterPushDown {
  import opened QueryPlan
  import opened PlanFacts

  datatype PredicateSet = PredicateSet(equality: seq<Expr>, others: seq<Expr>) {

    function All(): seq<Expr> {
      equality + others
    }

    function Add(p: Expr): PredicateSet {
      if p.Equals? then PredicateSet(equality + [p], others) else PredicateSet(equality, others + [p])
    }
  }

  const NONE := PredicateSet([], [])

  /** Predicates that can run on rows with these columns. */
  ghost predicate SetOk(keys: map<string, string>, scope: set<Name>, ps: PredicateSet) {
    (forall i :: 0 <= i < |ps.equality| ==> ps.equality[i].Equals?) && ListOk(keys, scope, ps.All())
  }

  ghost predicate PredicateOk(keys: map<string, string>, scope: set<Name>, p: Expr) {
    ExprOk(keys, scope, p) && !p.Literal?
  }

  ghost predicate ListOk(keys: map<string, string>, scope: set<Name>, ps: seq<Expr>) {
    forall i :: 0 <= i < |ps| ==> PredicateOk(keys, scope, ps[i])
  }

  /** At every product that a predicate may be pushed through, what one side can compute of it is not a
      column of the other. No predicate comes to a marked product, which has a merge right above it. */
  ghost predicate ClearBelow(op: Op, p: Expr) {
    match op
    case Filter(_, c) => ClearBelow(c, p)
    case CrossProduct(accumulate, l, r) =>
      !accumulate.Marked? && Clear(Scope(l), Scope(r), p) && ClearBelow(l, p) && ClearBelow(r, p)
    case HashJoin(_, l, r) => ClearBelow(l, p) && ClearBelow(r, p)
    case CountJoin(_, _, l, r) => ClearBelow(l, p) && ClearBelow(r, p)
    case OtherJoin(_, _, _, l, r) => ClearBelow(l, p) && ClearBelow(r, p)
    case _ => true
  }

  ghost predicate AllClear(op: Op, ps: seq<Expr>) {
    forall i :: 0 <= i < |ps| ==> ClearBelow(op, ps[i])
  }

  /** A plan as the pass gets it: nothing has been pushed, and the names in its filters are clear. */
  ghost predicate Planned(op: Op) {
    match op
    case Scan(_, _, _, scanType, pushed) => scanType.TableScan? && pushed == []
    case Filter(p, c) => Planned(c) && ClearBelow(c, p)
    case CrossProduct(_, l, r) => Planned(l) && Planned(r)
    case HashJoin(_, l, r) => Planned(l) && Planned(r)
    case CountJoin(_, _, l, r) => Planned(l) && Planned(r)
    case OtherJoin(_, _, _, l, r) => Planned(l) && Planned(r)
    case EmptyResult(_) => true
    case Other(_, _, hints, _, _, inputs) => hints == [] && forall i :: 0 <= i < |inputs| ==> Planned(inputs[i])
  }

  /** `res` is `op` filtered: it has a row as often if all predicates are true of it, and not at all
      if one is false or null. */
  ghost predicate Restricts(db: Database, res: Op, op: Op, ps: seq<Expr>) {
    && PlanOk(db, op) && PlanOk(db, res) && Scope(res) == Scope(op)
    && forall row {:trigger Times(db, res, row)} ::
         Times(db, res, row) == if AllTrue(ps, row) then Times(db, op, row) else 0
  }

  /** Two plans agree on the rows that meet the predicates. */
  ghost predicate SameWhere(db: Database, a: Op, b: Op, ps: seq<Expr>)
    requires PlanOk(db, a) && PlanOk(db, b)
  {
    forall row {:trigger Times(db, a, row)} :: AllTrue(ps, row) ==> Times(db, a, row) == Times(db, b, row)
  }

  // ----- predicates -----

  lemma {:induction false} AllTrueConcat(a: seq<Expr>, b: seq<Expr>, row: Row)
    ensures AllTrue(a + b, row) <==> AllTrue(a, row) && AllTrue(b, row)
  {
    forall i | 0 <= i < |b| ensures (a + b)[|a| + i] == b[i] {}
    if AllTrue(a + b, row) {
      forall i | 0 <= i < |a| ensures True(a[i], row) { assert True((a + b)[i], row); }
      forall i | 0 <= i < |b| ensures True(b[i], row) { assert True((a + b)[|a| + i], row); }
    }
  }

  lemma {:induction false} AllTrueAdd(ps: PredicateSet, p: Expr, row: Row)
    ensures AllTrue(ps.Add(p).All(), row) <==> AllTrue(ps.All(), row) && True(p, row)
  {
    AllTrueConcat(ps.equality, ps.others, row);
    AllTrueConcat(ps.Add(p).equality, ps.Add(p).others, row);
    AllTrueConcat(ps.equality, [p], row);
    AllTrueConcat(ps.others, [p], row);
    assert AllTrue([p], row) <==> True(p, row) by { assert [p][0] == p; }
  }

  lemma {:induction false} SetOkAdd(keys: map<string, string>, scope: set<Name>, ps: PredicateSet, p: Expr)
    requires SetOk(keys, scope, ps) && PredicateOk(keys, scope, p)
    ensures SetOk(keys, scope, ps.Add(p))
  {
    var all, all' := ps.All(), ps.Add(p).All();
    forall i | 0 <= i < |all'| ensures PredicateOk(keys, scope, all'[i]) {
      var n := |ps.equality|;
      assert p.Equals? && i > n ==> all'[i] == all[i - 1];
      assert (p.Equals? && i < n) || (!p.Equals? && i < |all|) ==> all'[i] == all[i];
    }
  }

  /** Both operands of an equality the other way round. */
  function Swapped(p: Expr): Expr
    requires p.Equals?
  {
    Equals(p.text, p.right, p.left)
  }

  predicate IsNodeKey(e: Expr, node: Expr)
    requires node.Property?
  {
    e.Property? && e.variable == node.variable && e.primaryKey
  }

  // ----- operators -----

  lemma {:induction false} RestrictsSelf(db: Database, op: Op)
    requires PlanOk(db, op)
    ensures Restricts(db, op, op, [])
  {
  }

  lemma {:induction false} RestrictsFilter(db: Database, res: Op, op: Op, ps: seq<Expr>, p: Expr)
    requires Restricts(db, res, op, ps) && PredicateOk(db.keys, Scope(op), p)
    ensures Restricts(db, Filter(p, res), op, ps + [p])
  {
    forall row ensures Times(db, Filter(p, res), row) == if AllTrue(ps + [p], row) then Times(db, op, row) else 0 {
      FilterTimes(Rows(db, res), p, row);
      AllTrueConcat(ps, [p], row);
      assert AllTrue([p], row) <==> True(p, row) by { assert [p][0] == p; }
      assert Times(db, res, row) == if AllTrue(ps, row) then Times(db, op, row) else 0;
    }
  }

  /** The predicates as filters on top of a plan, the first one lowest. */
  function Filtered(ps: seq<Expr>, op: Op): Op {
    if ps == [] then op else Filter(ps[|ps| - 1], Filtered(ps[..|ps| - 1], op))
  }

  lemma {:induction false} FilteredRestricts(db: Database, ps: seq<Expr>, op: Op)
    requires PlanOk(db, op) && ListOk(db.keys, Scope(op), ps)
    ensures Restricts(db, Filtered(ps, op), op, ps)
  {
    if ps == [] {
      RestrictsSelf(db, op);
    } else {
      var n := |ps| - 1;
      FilteredRestricts(db, ps[..n], op);
      RestrictsFilter(db, Filtered(ps[..n], op), op, ps[..n], ps[n]);
      assert ps[..n] + [ps[n]] == ps;
    }
  }

  /** Filters on top of one plan restrict another exactly if the plans agree where the filters let pass. */
  lemma {:induction false} FilteredRestrictsIff(db: Database, ps: seq<Expr>, a: Op, b: Op)
    requires PlanOk(db, a) && PlanOk(db, b) && Scope(a) == Scope(b) && ListOk(db.keys, Scope(a), ps)
    ensures Restricts(db, Filtered(ps, a), b, ps) <==> SameWhere(db, a, b, ps)
  {
    FilteredRestricts(db, ps, a);
    var f := Filtered(ps, a);
    if Restricts(db, f, b, ps) {
      forall row | AllTrue(ps, row) ensures Times(db, a, row) == Times(db, b, row) {
        assert Times(db, f, row) == Times(db, a, row);
      }
    }
    if SameWhere(db, a, b, ps) {
      forall row ensures Times(db, f, row) == if AllTrue(ps, row) then Times(db, b, row) else 0 {
        assert AllTrue(ps, row) ==> Times(db, a, row) == Times(db, b, row);
      }
    }
  }

  method AppendFilters(ghost db: Database, predicates: seq<Expr>, child: Op) returns (root: Op)
    requires PlanOk(db, child) && ListOk(db.keys, Scope(child), predicates)
    ensures Restricts(db, root, child, predicates) && root == Filtered(predicates, child)
  {
    root := child;
    var i := 0;
    while i < |predicates|
      invariant 0 <= i <= |predicates| && root == Filtered(predicates[..i], child)
    {
      assert predicates[..i + 1][..i] == predicates[..i];
      root := Filter(predicates[i], root);
      i := i + 1;
    }
    assert predicates[..i] == predicates;
    FilteredRestricts(db, predicates, child);
  }

  // ----- cross products -----

  lemma {:induction false} JoinedTimes(db: Database, conditions: seq<(Expr, Expr)>, l: Op, r: Op, row: Row)
    requires PlanOk(db, l) && PlanOk(db, r) && Scope(l) !! Scope(r)
    ensures Times(db, HashJoin(conditions, l, r), row) ==
            if Joins(conditions, Scope(l), Scope(r), row)
            then Times(db, l, Restrict(row, Scope(l))) * Times(db, r, Restrict(row, Scope(r))) else 0
  {
    RowsIn(db, l);
    RowsIn(db, r);
    JoinTimes(conditions, Rows(db, l), Rows(db, r), Scope(l), Scope(r), row);
  }

  /** How often a row of the build side is in what the product has of it. */
  ghost function BuildTimes(accumulate: Accumulate, rows: seq<Row>, scope: set<Name>, row: Row): nat {
    if accumulate.Optional? && rows == [] then (if row == Nulls(scope) then 1 else 0) else multiset(rows)[row]
  }

  lemma {:induction false} CrossTimes(db: Database, op: Op, row: Row)
    requires op.CrossProduct? && !op.accumulate.Marked? && PlanOk(db, op)
    ensures Times(db, op, row) ==
            if row.Keys == Scope(op.left) + Scope(op.right)
            then Times(db, op.left, Restrict(row, Scope(op.left))) *
                 BuildTimes(op.accumulate, Rows(db, op.right), Scope(op.right), Restrict(row, Scope(op.right)))
            else 0
  {
    var l, r, b := op.left, op.right, Scope(op.right);
    var rows := Collected(op.accumulate, Rows(db, r), b);
    RowsIn(db, l);
    RowsIn(db, r);
    CollectedIn(op.accumulate, Rows(db, r), b);
    assert b + Marks(op.accumulate) == b;
    JoinTimes([], Rows(db, l), rows, Scope(l), b, row);
    assert multiset(rows)[Restrict(row, b)] == BuildTimes(op.accumulate, Rows(db, r), b, Restrict(row, b));
  }

  /** Predicates of one side of a product. */
  ghost predicate OfSide(a: set<Name>, b: set<Name>, ps: seq<Expr>) {
    forall i :: 0 <= i < |ps| ==> Clear(a, b, ps[i]) && Evaluable(a, ps[i])
  }

  /** The two sides of a product with their own predicates pushed into them. */
  ghost predicate SidesOk(db: Database, op: Op, l: Op, r: Op, probe: seq<Expr>, build: seq<Expr>, all: seq<Expr>) {
    && op.CrossProduct? && !op.accumulate.Marked? && PlanOk(db, op)
    && Restricts(db, l, op.left, probe) && Restricts(db, r, op.right, build)
    && OfSide(Scope(op.left), Scope(op.right), probe) && OfSide(Scope(op.right), Scope(op.left), build)
    && forall row {:trigger AllTrue(all, row)} :: AllTrue(all, row) ==> AllTrue(probe, row) && AllTrue(build, row)
  }

  /** Where all predicates are true, pushing them into the sides changes neither side. */
  lemma {:induction false} SidesTimes(db: Database, op: Op, l: Op, r: Op, probe: seq<Expr>, build: seq<Expr>,
                                      all: seq<Expr>, row: Row)
    requires SidesOk(db, op, l, r, probe, build, all) && row.Keys == Scope(op.left) + Scope(op.right)
    requires AllTrue(all, row)
    ensures Times(db, l, Restrict(row, Scope(op.left))) == Times(db, op.left, Restrict(row, Scope(op.left)))
    ensures Times(db, r, Restrict(row, Scope(op.right))) == Times(db, op.right, Restrict(row, Scope(op.right)))
  {
    var a, b := Scope(op.left), Scope(op.right);
    AllTrueSide(a, b, probe, row);
    assert b + a == a + b;
    AllTrueSide(b, a, build, row);
  }

  ghost predicate SomePasses(rows: seq<Row>, ps: seq<Expr>) {
    exists i :: 0 <= i < |rows| && AllTrue(ps, rows[i])
  }

  /** No probe row passes with nulls for the build side. */
  ghost predicate NullsFail(rows: seq<Row>, scope: set<Name>, ps: seq<Expr>) {
    forall i :: 0 <= i < |rows| ==> !AllTrue(ps, rows[i] + Nulls(scope))
  }

  /** When a product may have its build predicates pushed into the build side: it is regular, or the
      build side was empty already or does not become so, or the row of nulls does not pass. */
  ghost predicate BuildKept(db: Database, op: Op, build: seq<Expr>, all: seq<Expr>)
    requires op.CrossProduct? && PlanOk(db, op)
  {
    var rows := Rows(db, op.right);
    op.accumulate.Regular? || rows == [] || SomePasses(rows, build) ||
    NullsFail(Rows(db, op.left), Scope(op.right), all)
  }

  lemma {:induction false} EmptyIff(db: Database, res: Op, op: Op, ps: seq<Expr>)
    requires Restricts(db, res, op, ps)
    ensures Rows(db, res) == [] <==> !SomePasses(Rows(db, op), ps)
  {
    var rows, rows' := Rows(db, op), Rows(db, res);
    if SomePasses(rows, ps) {
      var i :| 0 <= i < |rows| && AllTrue(ps, rows[i]);
      assert rows[i] in multiset(rows);
      assert Times(db, res, rows[i]) > 0;
    }
    if rows' != [] {
      assert rows'[0] in multiset(rows');
      assert Times(db, res, rows'[0]) > 0;
      assert rows'[0] in multiset(rows);
    }
  }

  /** A regular product, an empty build side or one that is left with rows: the row of nulls is in both
      products or in neither. */
  lemma {:induction false} ProductSame(db: Database, op: Op, l: Op, r: Op, probe: seq<Expr>, build: seq<Expr>,
                                       all: seq<Expr>, row: Row)
    requires SidesOk(db, op, l, r, probe, build, all) && AllTrue(all, row)
    requires op.accumulate.Regular? || (Rows(db, op.right) == [] <==> Rows(db, r) == [])
    ensures Times(db, CrossProduct(op.accumulate, l, r), row) == Times(db, op, row)
  {
    CrossTimes(db, CrossProduct(op.accumulate, l, r), row);
    CrossTimes(db, op, row);
    if row.Keys == Scope(op.left) + Scope(op.right) { SidesTimes(db, op, l, r, probe, build, all, row); }
  }

  lemma {:induction false} NoneOrOne(n: nat)
    ensures n * 0 == 0 && n * 1 == n
  {
  }

  /** A build side that the predicates leave empty: no row is due, and the row of nulls comes out. */
  lemma {:induction false} ProductNulls(db: Database, op: Op, l: Op, r: Op, probe: seq<Expr>, build: seq<Expr>,
                                        all: seq<Expr>, row: Row)
    requires SidesOk(db, op, l, r, probe, build, all) && AllTrue(all, row)
    requires op.accumulate.Optional? && Rows(db, op.right) != [] && Rows(db, r) == []
    ensures Times(db, op, row) == 0
    ensures Times(db, CrossProduct(op.accumulate, l, r), row) ==
            if row.Keys == Scope(op.left) + Scope(op.right) && Restrict(row, Scope(op.right)) == Nulls(Scope(op.right))
            then Times(db, op.left, Restrict(row, Scope(op.left))) else 0
  {
    var a, b := Scope(op.left), Scope(op.right);
    CrossTimes(db, CrossProduct(op.accumulate, l, r), row);
    CrossTimes(db, op, row);
    if row.Keys == a + b {
      var n, x := Times(db, op.left, Restrict(row, a)), Restrict(row, b);
      SidesTimes(db, op, l, r, probe, build, all, row);
      assert BuildTimes(op.accumulate, Rows(db, op.right), b, x) == Times(db, op.right, x) == 0;
      assert BuildTimes(op.accumulate, Rows(db, r), b, x) == if x == Nulls(b) then 1 else 0;
      NoneOrOne(n);
    }
  }

  /** Pushing predicates into the sides of a product keeps the rows that pass all predicates exactly if
      `BuildKept` holds. */
  lemma {:induction false} ProductSameIff(db: Database, op: Op, l: Op, r: Op, probe: seq<Expr>, build: seq<Expr>,
                                          all: seq<Expr>)
    requires SidesOk(db, op, l, r, probe, build, all)
    ensures PlanOk(db, CrossProduct(op.accumulate, l, r))
    ensures SameWhere(db, CrossProduct(op.accumulate, l, r), op, all) <==> BuildKept(db, op, build, all)
  {
    EmptyIff(db, r, op.right, build);
    if op.accumulate.Regular? || (Rows(db, op.right) == [] <==> Rows(db, r) == []) {
      forall row | AllTrue(all, row)
        ensures Times(db, CrossProduct(op.accumulate, l, r), row) == Times(db, op, row)
      {
        ProductSame(db, op, l, r, probe, build, all, row);
      }
    } else {
      NullsIff(db, op, l, r, probe, build, all);
    }
  }

  lemma {:induction false} NullsIff(db: Database, op: Op, l: Op, r: Op, probe: seq<Expr>, build: seq<Expr>,
                                    all: seq<Expr>)
    requires SidesOk(db, op, l, r, probe, build, all)
    requires op.accumulate.Optional? && Rows(db, op.right) != [] && Rows(db, r) == []
    ensures PlanOk(db, CrossProduct(op.accumulate, l, r))
    ensures SameWhere(db, CrossProduct(op.accumulate, l, r), op, all) <==>
            NullsFail(Rows(db, op.left), Scope(op.right), all)
  {
    var a, b, rows := Scope(op.left), Scope(op.right), Rows(db, op.left);
    var product := CrossProduct(op.accumulate, l, r);
    if NullsFail(rows, b, all) {
      forall row | AllTrue(all, row) ensures Times(db, product, row) == Times(db, op, row) {
        ProductNulls(db, op, l, r, probe, build, all, row);
        if row.Keys == a + b && Restrict(row, b) == Nulls(b) {
          MergeRow(row, a, b);
          assert Restrict(row, a) in multiset(rows) <==> Restrict(row, a) in rows;
        }
      }
    } else {
      var i :| 0 <= i < |rows| && AllTrue(all, rows[i] + Nulls(b));
      var row := rows[i] + Nulls(b);
      RowsIn(db, op.left);
      SplitRow(rows[i], Nulls(b), a, b);
      ProductNulls(db, op, l, r, probe, build, all, row);
      assert rows[i] in multiset(rows);
      assert Times(db, product, row) > 0 == Times(db, op, row);
    }
  }

  ghost predicate SplitOk(ps: seq<Expr>, probe: PredicateSet, build: PredicateSet, remaining: PredicateSet) {
    forall row {:trigger AllTrue(ps, row)} ::
      AllTrue(ps, row) <==> AllTrue(probe.All(), row) && AllTrue(build.All(), row) && AllTrue(remaining.All(), row)
  }

  datatype Side = Probe | Build | Undecided

  /** The one side that can evaluate the predicate, if there is just one. */
  function SideOf(a: set<Name>, b: set<Name>, p: Expr): Side {
    if Evaluable(a, p) && !Evaluable(b, p) then Probe
    else if !Evaluable(a, p) && Evaluable(b, p) then Build
    else Undecided
  }

  /** The predicates of a side, in their order. */
  function Chosen(side: Side, a: set<Name>, b: set<Name>, ps: seq<Expr>): PredicateSet {
    if ps == [] then NONE
    else
      var n := |ps| - 1;
      var before := Chosen(side, a, b, ps[..n]);
      if SideOf(a, b, ps[n]) == side then before.Add(ps[n]) else before
  }

  ghost predicate AllOf(ps: seq<Expr>, all: seq<Expr>) {
    forall i :: 0 <= i < |ps| ==> ps[i] in all
  }

  lemma {:induction false} AllOfAdd(ps: PredicateSet, all: seq<Expr>, p: Expr)
    requires AllOf(ps.All(), all) && p in all
    ensures AllOf(ps.Add(p).All(), all)
  {
    var old_, all' := ps.All(), ps.Add(p).All();
    forall i | 0 <= i < |all'| ensures all'[i] in all {
      var n := |ps.equality|;
      assert p.Equals? && i > n ==> all'[i] == old_[i - 1];
      assert (p.Equals? && i < n) || (!p.Equals? && i < |old_|) ==> all'[i] == old_[i];
    }
  }

  lemma {:induction false} SplitAdd(ps: seq<Expr>, p: Expr, probe: PredicateSet, build: PredicateSet,
                                    remaining: PredicateSet)
    requires SplitOk(ps, probe, build, remaining)
    ensures SplitOk(ps + [p], probe.Add(p), build, remaining)
    ensures SplitOk(ps + [p], probe, build.Add(p), remaining)
    ensures SplitOk(ps + [p], probe, build, remaining.Add(p))
  {
    forall row ensures AllTrue(ps + [p], row) <==> AllTrue(ps, row) && True(p, row) {
      AllTrueConcat(ps, [p], row);
      assert AllTrue([p], row) <==> True(p, row) by { assert [p][0] == p; }
    }
    forall row ensures AllTrue(probe.Add(p).All(), row) <==> AllTrue(probe.All(), row) && True(p, row) {
      AllTrueAdd(probe, p, row);
    }
    forall row ensures AllTrue(build.Add(p).All(), row) <==> AllTrue(build.All(), row) && True(p, row) {
      AllTrueAdd(build, p, row);
    }
    forall row ensures AllTrue(remaining.Add(p).All(), row) <==> AllTrue(remaining.All(), row) && True(p, row) {
      AllTrueAdd(remaining, p, row);
    }
  }

  lemma {:induction false} OfSideAdd(a: set<Name>, b: set<Name>, ps: PredicateSet, p: Expr)
    requires OfSide(a, b, ps.All()) && Clear(a, b, p) && Evaluable(a, p)
    ensures OfSide(a, b, ps.Add(p).All())
  {
    var all, all' := ps.All(), ps.Add(p).All();
    forall i | 0 <= i < |all'| ensures Clear(a, b, all'[i]) && Evaluable(a, all'[i]) {
      var n := |ps.equality|;
      assert p.Equals? && i > n ==> all'[i] == all[i - 1];
      assert (p.Equals? && i < n) || (!p.Equals? && i < |all|) ==> all'[i] == all[i];
    }
  }

  lemma {:induction false} AllClearAdd(op: Op, ps: PredicateSet, p: Expr)
    requires AllClear(op, ps.All()) && ClearBelow(op, p)
    ensures AllClear(op, ps.Add(p).All())
  {
    var all, all' := ps.All(), ps.Add(p).All();
    forall i | 0 <= i < |all'| ensures ClearBelow(op, all'[i]) {
      var n := |ps.equality|;
      assert p.Equals? && i > n ==> all'[i] == all[i - 1];
      assert (p.Equals? && i < n) || (!p.Equals? && i < |all|) ==> all'[i] == all[i];
    }
  }

  ghost predicate AllUndecided(a: set<Name>, b: set<Name>, ps: seq<Expr>) {
    forall i :: 0 <= i < |ps| ==> Clear(a, b, ps[i]) && SideOf(a, b, ps[i]).Undecided?
  }

  /** Every predicate goes to the one side that can evaluate it, or to neither. */
  lemma {:induction false} ChosenOk(keys: map<string, string>, a: set<Name>, b: set<Name>, ps: seq<Expr>)
    requires a !! b && ListOk(keys, a + b, ps) && forall i :: 0 <= i < |ps| ==> Clear(a, b, ps[i])
    ensures SplitOk(ps, Chosen(Probe, a, b, ps), Chosen(Build, a, b, ps), Chosen(Undecided, a, b, ps))
    ensures SetOk(keys, a, Chosen(Probe, a, b, ps)) && SetOk(keys, b, Chosen(Build, a, b, ps))
    ensures SetOk(keys, a + b, Chosen(Undecided, a, b, ps))
    ensures OfSide(a, b, Chosen(Probe, a, b, ps).All()) && OfSide(b, a, Chosen(Build, a, b, ps).All())
    ensures forall side :: AllOf(Chosen(side, a, b, ps).All(), ps)
    ensures AllUndecided(a, b, Chosen(Undecided, a, b, ps).All())
  {
    if ps != [] {
      var n := |ps| - 1;
      ChosenOk(keys, a, b, ps[..n]);
      assert ps[..n] + [ps[n]] == ps;
      ChosenMore(keys, a, b, ps[..n], ps[n]);
    }
  }

  lemma {:induction false} ChosenMore(keys: map<string, string>, a: set<Name>, b: set<Name>, ps: seq<Expr>, p: Expr)
    requires a !! b && PredicateOk(keys, a + b, p) && Clear(a, b, p)
    requires SplitOk(ps, Chosen(Probe, a, b, ps), Chosen(Build, a, b, ps), Chosen(Undecided, a, b, ps))
    requires SetOk(keys, a, Chosen(Probe, a, b, ps)) && SetOk(keys, b, Chosen(Build, a, b, ps))
    requires SetOk(keys, a + b, Chosen(Undecided, a, b, ps))
    requires OfSide(a, b, Chosen(Probe, a, b, ps).All()) && OfSide(b, a, Chosen(Build, a, b, ps).All())
    requires forall side :: AllOf(Chosen(side, a, b, ps).All(), ps)
    requires AllUndecided(a, b, Chosen(Undecided, a, b, ps).All())
    ensures var all := ps + [p];
            var probe, build, rest := Chosen(Probe, a, b, all), Chosen(Build, a, b, all), Chosen(Undecided, a, b, all);
            && SplitOk(all, probe, build, rest)
            && SetOk(keys, a, probe) && SetOk(keys, b, build) && SetOk(keys, a + b, rest)
            && OfSide(a, b, probe.All()) && OfSide(b, a, build.All()) && AllUndecided(a, b, rest.All())
            && forall side :: AllOf(Chosen(side, a, b, all).All(), all)
  {
    var all := ps + [p];
    var probe, build, rest := Chosen(Probe, a, b, ps), Chosen(Build, a, b, ps), Chosen(Undecided, a, b, ps);
    assert all[..|ps|] == ps;
    SplitAdd(ps, p, probe, build, rest);
    forall side ensures AllOf(Chosen(side, a, b, all).All(), all) { ChosenAll(side, a, b, ps, p); }
    match SideOf(a, b, p)
    case Probe =>
      ExprOkSide(keys, a, b, p);
      SetOkAdd(keys, a, probe, p);
      OfSideAdd(a, b, probe, p);
    case Build =>
      ClearSym(a, b, p);
      assert b + a == a + b;
      ExprOkSide(keys, b, a, p);
      SetOkAdd(keys, b, build, p);
      OfSideAdd(b, a, build, p);
    case Undecided =>
      SetOkAdd(keys, a + b, rest, p);
      UndecidedAdd(a, b, rest, p);
  }

  lemma {:induction false} ChosenAll(side: Side, a: set<Name>, b: set<Name>, ps: seq<Expr>, p: Expr)
    requires AllOf(Chosen(side, a, b, ps).All(), ps)
    ensures AllOf(Chosen(side, a, b, ps + [p]).All(), ps + [p])
  {
    assert (ps + [p])[..|ps|] == ps;
    AllOfAdd(Chosen(side, a, b, ps), ps + [p], p);
  }

  lemma {:induction false} UndecidedAdd(a: set<Name>, b: set<Name>, ps: PredicateSet, p: Expr)
    requires AllUndecided(a, b, ps.All()) && Clear(a, b, p) && SideOf(a, b, p).Undecided?
    ensures AllUndecided(a, b, ps.Add(p).All())
  {
    var all, all' := ps.All(), ps.Add(p).All();
    forall i | 0 <= i < |all'| ensures Clear(a, b, all'[i]) && SideOf(a, b, all'[i]).Undecided? {
      var n := |ps.equality|;
      assert p.Equals? && i > n ==> all'[i] == all[i - 1];
      assert (p.Equals? && i < n) || (!p.Equals? && i < |all|) ==> all'[i] == all[i];
    }
  }

  /** An equality of a column of one side and a column of the other. */
  predicate IsCondition(a: set<Name>, b: set<Name>, p: Expr) {
    p.Equals? && ((NameOf(p.left) in a && NameOf(p.right) in b) || (NameOf(p.right) in a && NameOf(p.left) in b))
  }

  predicate HasCondition(a: set<Name>, b: set<Name>, equality: seq<Expr>) {
    exists i :: 0 <= i < |equality| && IsCondition(a, b, equality[i])
  }

  /** What an equality says as a join condition. */
  lemma {:induction false} ConditionTrue(a: set<Name>, b: set<Name>, p: Expr, l: Expr, r: Expr, row: Row)
    requires a !! b && row.Keys == a + b && p.Equals? && NameOf(p) !in a + b
    requires (l, r) == (p.left, p.right) || (l, r) == (p.right, p.left)
    requires NameOf(l) in a && NameOf(r) in b
    ensures True(p, row) <==> KeyMatches((l, r), Restrict(row, a), Restrict(row, b))
  {
    assert Evaluate(l, row) == Evaluate(l, Restrict(row, a));
    assert Evaluate(r, row) == Evaluate(r, Restrict(row, b));
  }

  /** A row of nulls is never the match of a join condition. */
  lemma {:induction false} ConditionFails(a: set<Name>, b: set<Name>, p: Expr, row: Row)
    requires row.Keys == a + b && IsCondition(a, b, p) && NameOf(p) !in a + b && Restrict(row, b) == Nulls(b)
    ensures !True(p, row)
  {
    forall n | n in b ensures n in row && row[n].Null? { assert row[n] == Restrict(row, b)[n]; }
    assert Evaluate(p, row) == EqualValues(Evaluate(p.left, row), Evaluate(p.right, row));
    assert NameOf(p.right) in b ==> Evaluate(p.right, row).Null?;
    assert NameOf(p.left) in b ==> Evaluate(p.left, row).Null?;
  }

  /** With a join condition among the predicates, the product of the sides may as well be regular. */
  lemma {:induction false} ConditionSame(db: Database, op: Op, l: Op, r: Op, probe: seq<Expr>, build: seq<Expr>,
                                         all: seq<Expr>, p: Expr)
    requires SidesOk(db, op, l, r, probe, build, all)
    requires p in all && IsCondition(Scope(op.left), Scope(op.right), p)
    requires NameOf(p) !in Scope(op.left) + Scope(op.right)
    ensures PlanOk(db, CrossProduct(Regular, l, r))
    ensures SameWhere(db, CrossProduct(Regular, l, r), op, all)
  {
    var a, b, product := Scope(op.left), Scope(op.right), CrossProduct(Regular, l, r);
    forall row | AllTrue(all, row) ensures Times(db, product, row) == Times(db, op, row) {
      CrossTimes(db, product, row);
      CrossTimes(db, op, row);
      if row.Keys == a + b {
        SidesTimes(db, op, l, r, probe, build, all, row);
        assert True(p, row);
        if Restrict(row, b) == Nulls(b) { ConditionFails(a, b, p, row); }
      }
    }
  }

  /** An undecided predicate is a column of neither side. */
  lemma {:induction false} UndecidedName(a: set<Name>, b: set<Name>, p: Expr)
    requires Clear(a, b, p) && SideOf(a, b, p).Undecided?
    ensures NameOf(p) !in a + b
  {
  }
}
