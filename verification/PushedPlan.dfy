/** What the push-down pass makes of a plan, without hash joins, lookups and zone maps, and when that is
    the plan it was given. */
module PushedPlan {
  import opened QueryPlan
  import opened PlanFacts
  import opened ScanFacts
  import opened FilterPushDown

  // ----- operators whose inputs are optimised on their own -----

  predicate HasInputs(op: Op) {
    op.HashJoin? || op.CountJoin? || op.OtherJoin? || op.EmptyResult? || op.Other?
  }

  function Inputs(op: Op): (r: seq<Op>)
    requires HasInputs(op)
    ensures forall i :: 0 <= i < |r| ==> r[i] < op
  {
    match op
    case HashJoin(_, l, r) => [l, r]
    case CountJoin(_, _, l, r) => [l, r]
    case OtherJoin(_, _, _, l, r) => [l, r]
    case EmptyResult(_) => []
    case Other(_, _, _, _, _, inputs) => inputs
  }

  function WithInputs(op: Op, inputs: seq<Op>): Op
    requires HasInputs(op) && |inputs| == |Inputs(op)|
  {
    match op
    case HashJoin(conditions, _, _) => HashJoin(conditions, inputs[0], inputs[1])
    case CountJoin(conditions, count, _, _) => CountJoin(conditions, count, inputs[0], inputs[1])
    case OtherJoin(joinType, columns, join, _, _) => OtherJoin(joinType, columns, join, inputs[0], inputs[1])
    case EmptyResult(columns) => EmptyResult(columns)
    case Other(kind, stored, hints, columns, run, _) => Other(kind, stored, hints, columns, run, inputs)
  }

  lemma {:induction false} SameBag(db: Database, a: Op, b: Op)
    requires Restricts(db, a, b, [])
    ensures multiset(Rows(db, a)) == multiset(Rows(db, b))
  {
    forall row ensures multiset(Rows(db, a))[row] == multiset(Rows(db, b))[row] {
      assert Times(db, a, row) == Times(db, b, row);
    }
  }

  /** The same inputs up to their bags: the scopes stay, and so do the plan's demands. */
  lemma {:induction false} WithInputsOk(db: Database, op: Op, inputs: seq<Op>)
    requires HasInputs(op) && PlanOk(db, op) && |inputs| == |Inputs(op)|
    requires forall i :: 0 <= i < |inputs| ==> PlanOk(db, inputs[i]) && Scope(inputs[i]) == Scope(Inputs(op)[i])
    ensures PlanOk(db, WithInputs(op, inputs)) && Scope(WithInputs(op, inputs)) == Scope(op)
  {
    if op.HashJoin? || op.CountJoin? || op.OtherJoin? {
      assert Inputs(op)[0] == op.left && Inputs(op)[1] == op.right;
    }
  }

  lemma {:induction false} SameHashJoin(db: Database, op: Op, l: Op, r: Op)
    requires op.HashJoin? && PlanOk(db, op) && Restricts(db, l, op.left, []) && Restricts(db, r, op.right, [])
    ensures Restricts(db, HashJoin(op.conditions, l, r), op, [])
  {
    SameBag(db, l, op.left);
    SameBag(db, r, op.right);
    JoinBag(op.conditions, Rows(db, l), Rows(db, op.left), Rows(db, r), Rows(db, op.right));
    SameBags(db, HashJoin(op.conditions, l, r), op);
  }

  lemma {:induction false} SameCountJoin(db: Database, op: Op, l: Op, r: Op)
    requires op.CountJoin? && PlanOk(db, op) && Restricts(db, l, op.left, []) && Restricts(db, r, op.right, [])
    ensures Restricts(db, CountJoin(op.conditions, op.count, l, r), op, [])
  {
    SameBag(db, l, op.left);
    SameBag(db, r, op.right);
    CountBag(op.conditions, op.count, Rows(db, l), Rows(db, op.left), Rows(db, r), Rows(db, op.right));
    SameBags(db, CountJoin(op.conditions, op.count, l, r), op);
  }

  lemma {:induction false} SameBags(db: Database, a: Op, b: Op)
    requires PlanOk(db, a) && PlanOk(db, b) && Scope(a) == Scope(b) && multiset(Rows(db, a)) == multiset(Rows(db, b))
    ensures Restricts(db, a, b, [])
  {
  }

  /** The bag of an operator depends only on the bags of its inputs. */
  lemma {:induction false} SameInputs(db: Database, op: Op, inputs: seq<Op>)
    requires HasInputs(op) && PlanOk(db, op) && |inputs| == |Inputs(op)|
    requires forall i :: 0 <= i < |inputs| ==> Restricts(db, inputs[i], Inputs(op)[i], [])
    ensures Restricts(db, WithInputs(op, inputs), op, [])
  {
    forall i | 0 <= i < |inputs| ensures multiset(Rows(db, inputs[i])) == multiset(Rows(db, Inputs(op)[i])) {
      SameBag(db, inputs[i], Inputs(op)[i]);
    }
    match op
    case HashJoin(_, l, r) =>
      assert Inputs(op) == [l, r];
      SameHashJoin(db, op, inputs[0], inputs[1]);
    case CountJoin(_, _, l, r) =>
      assert Inputs(op) == [l, r];
      SameCountJoin(db, op, inputs[0], inputs[1]);
    case OtherJoin(_, _, _, l, r) =>
      assert Inputs(op) == [l, r];
    case EmptyResult(_) =>
    case Other(_, _, _, _, _, old_) =>
      assert seq(|inputs|, i requires 0 <= i < |inputs| => multiset(Rows(db, inputs[i]))) ==
             seq(|old_|, i requires 0 <= i < |old_| => multiset(Rows(db, old_[i])));
  }

  /** The bag of a product depends only on the bags of its sides. */
  lemma {:induction false} SameSides(db: Database, op: Op, l: Op, r: Op)
    requires op.CrossProduct? && PlanOk(db, op) && Restricts(db, l, op.left, []) && Restricts(db, r, op.right, [])
    ensures Restricts(db, CrossProduct(op.accumulate, l, r), op, [])
  {
    var rows, rows' := Rows(db, r), Rows(db, op.right);
    SameBag(db, l, op.left);
    SameBag(db, r, op.right);
    CollectedBag(op.accumulate, rows, rows', Scope(r));
    JoinBag([], Rows(db, l), Rows(db, op.left), Collected(op.accumulate, rows, Scope(r)),
            Collected(op.accumulate, rows', Scope(r)));
    assert PlanOk(db, CrossProduct(op.accumulate, l, r));
  }

  lemma {:induction false} RestrictsTwice(db: Database, a: Op, b: Op, c: Op, ps: seq<Expr>)
    requires Restricts(db, a, b, ps) && Restricts(db, b, c, [])
    ensures Restricts(db, a, c, ps)
  {
    forall row ensures Times(db, a, row) == if AllTrue(ps, row) then Times(db, c, row) else 0 {
      assert Times(db, b, row) == Times(db, c, row);
    }
  }

  lemma {:induction false} LiteralValue(db: Database, op: Op, row: Row)
    requires op.Filter? && PlanOk(db, op) && op.predicate_.Literal? && row.Keys == Scope(op)
    ensures Evaluate(op.predicate_, row) == op.predicate_.value
  {
  }

  lemma {:induction false} FilteredTimes(db: Database, op: Op, row: Row)
    requires op.Filter? && PlanOk(db, op)
    ensures Times(db, op, row) == if True(op.predicate_, row) then Times(db, op.child, row) else 0
    ensures row.Keys != Scope(op) ==> Times(db, op.child, row) == 0
  {
    FilterTimes(Rows(db, op.child), op.predicate_, row);
    TimesIn(db, op.child, row);
  }

  /** A filter on false or null lets nothing pass. */
  lemma {:induction false} NothingPasses(db: Database, op: Op, ps: seq<Expr>)
    requires op.Filter? && PlanOk(db, op) && op.predicate_.Literal? && op.predicate_.value != Bool(true)
    ensures Restricts(db, EmptyResult(Scope(op)), op, ps)
  {
    forall row ensures Times(db, EmptyResult(Scope(op)), row) == if AllTrue(ps, row) then Times(db, op, row) else 0 {
      FilteredTimes(db, op, row);
      if row.Keys == Scope(op) { LiteralValue(db, op, row); }
    }
  }

  /** A filter is as good as its predicate among those pending for its child; one on true is none. */
  lemma {:induction false} ThroughFilter(db: Database, res: Op, op: Op, all: seq<Expr>, pending: seq<Expr>)
    requires op.Filter? && PlanOk(db, op) && Restricts(db, res, op.child, pending)
    requires if op.predicate_.Literal? then op.predicate_.value == Bool(true) && pending == all
             else forall row {:trigger AllTrue(pending, row)} ::
                 AllTrue(pending, row) <==> AllTrue(all, row) && True(op.predicate_, row)
    ensures Restricts(db, res, op, all)
  {
    forall row ensures Times(db, res, row) == if AllTrue(all, row) then Times(db, op, row) else 0 {
      FilteredTimes(db, op, row);
      if op.predicate_.Literal? && row.Keys == Scope(op) { LiteralValue(db, op, row); }
      assert Times(db, res, row) == if AllTrue(pending, row) then Times(db, op.child, row) else 0;
    }
  }

  // ----- the pushed plan -----

  /** What a product's pending predicates make of it: a join of the sides, which has no row of nulls, if
      one of them is a condition between the sides. */
  ghost predicate BecomesJoin(op: Op, all: seq<Expr>)
    requires op.CrossProduct?
  {
    var a, b := Scope(op.left), Scope(op.right);
    HasCondition(a, b, Chosen(Undecided, a, b, all).equality)
  }

  /** A table function is told the predicates; its inputs are left alone. */
  predicate IsLeaf(op: Op) {
    op.Scan? || (op.Other? && op.kind.TableFunctionCall?)
  }

  /** The plan with the pending predicates pushed as far down as they go, and applied once more at every
      product on their way. */
  ghost function PushedDown(op: Op, ps: PredicateSet): Op
    decreases op, 2
  {
    if !op.Filter? then Filtered(ps.All(), Below(op, ps))
    else if !op.predicate_.Literal? then PushedDown(op.child, ps.Add(op.predicate_))
    else if op.predicate_.value == Bool(true) then PushedDown(op.child, ps)
    else EmptyResult(Scope(op))
  }

  /** What a pushed plan has below its filters. */
  ghost function Below(op: Op, ps: PredicateSet): Op
    requires !op.Filter?
    decreases op, 1
  {
    if op.CrossProduct? then
      var a, b := Scope(op.left), Scope(op.right);
      CrossProduct(if BecomesJoin(op, ps.All()) then Regular else op.accumulate,
                   PushedDown(op.left, Chosen(Probe, a, b, ps.All())),
                   PushedDown(op.right, Chosen(Build, a, b, ps.All())))
    else if IsLeaf(op) then op
    else WithInputs(op, PushedInputs(op, |Inputs(op)|))
  }

  /** The first `n` inputs, each pushed on its own. */
  ghost function PushedInputs(op: Op, n: nat): (r: seq<Op>)
    requires HasInputs(op) && n <= |Inputs(op)|
    ensures |r| == n && forall i :: 0 <= i < n ==> r[i] == PushedDown(Inputs(op)[i], NONE)
    decreases op, 0, n
  {
    if n == 0 then [] else PushedInputs(op, n - 1) + [PushedDown(Inputs(op)[n - 1], NONE)]
  }

  /** When the pushed plan is the plan restricted to the pending predicates: at every product that they
      do not turn into a join, pushing into the build side does not bring in a row of nulls that passes. */
  ghost predicate PushOk(db: Database, op: Op, ps: PredicateSet)
    requires PlanOk(db, op)
    decreases op
  {
    if op.Filter? && !op.predicate_.Literal? then PushOk(db, op.child, ps.Add(op.predicate_))
    else if op.Filter? then op.predicate_.value == Bool(true) ==> PushOk(db, op.child, ps)
    else if op.CrossProduct? then
      var a, b := Scope(op.left), Scope(op.right);
      && PushOk(db, op.left, Chosen(Probe, a, b, ps.All())) && PushOk(db, op.right, Chosen(Build, a, b, ps.All()))
      && ProductOk(db, op, ps.All())
    else
      IsLeaf(op) ||
      forall i :: 0 <= i < |Inputs(op)| ==> PlanOk(db, Inputs(op)[i]) && PushOk(db, Inputs(op)[i], NONE)
  }

  ghost predicate ProductOk(db: Database, op: Op, all: seq<Expr>)
    requires op.CrossProduct? && PlanOk(db, op)
  {
    BecomesJoin(op, all) ||
    BuildKept(db, op, Chosen(Build, Scope(op.left), Scope(op.right), all).All(), all)
  }

  // ----- every plan -----

  /** What a plan and the predicates that come to it have to meet. */
  ghost predicate PushReady(db: Database, op: Op, ps: PredicateSet) {
    PlanOk(db, op) && Planned(op) && SetOk(db.keys, Scope(op), ps) && AllClear(op, ps.All())
  }

  ghost predicate SameShape(db: Database, res: Op, op: Op) {
    PlanOk(db, res) && PlanOk(db, op) && Scope(res) == Scope(op)
  }

  /** No predicate comes to a marked product. */
  lemma {:induction false} MarkedAlone(op: Op, all: seq<Expr>)
    requires op.CrossProduct? && op.accumulate.Marked? && AllClear(op, all)
    ensures all == []
  {
    assert all == [] || !ClearBelow(op, all[0]);
  }

  lemma {:induction false} SidesReady(db: Database, op: Op, ps: PredicateSet)
    requires op.CrossProduct? && PushReady(db, op, ps)
    ensures PushReady(db, op.left, Chosen(Probe, Scope(op.left), Scope(op.right), ps.All()))
    ensures PushReady(db, op.right, Chosen(Build, Scope(op.left), Scope(op.right), ps.All()))
  {
    var a, b, all := Scope(op.left), Scope(op.right), ps.All();
    ReadyClear(db, op, ps);
    ChosenOk(db.keys, a, b, all);
    SidesClear(op, all, Chosen(Probe, a, b, all).All(), Chosen(Build, a, b, all).All());
  }

  /** The predicates at a product are clear between its sides, and their columns are those of the sides. */
  lemma {:induction false} ReadyClear(db: Database, op: Op, ps: PredicateSet)
    requires op.CrossProduct? && PushReady(db, op, ps)
    ensures var a, b, all := Scope(op.left), Scope(op.right), ps.All();
            ListOk(db.keys, a + b, all) && forall i :: 0 <= i < |all| ==> Clear(a, b, all[i])
  {
    var all := ps.All();
    if op.accumulate.Marked? { MarkedAlone(op, all); }
    forall i | 0 <= i < |all| ensures Clear(Scope(op.left), Scope(op.right), all[i]) { assert ClearBelow(op, all[i]); }
    assert Scope(op.right) + {} == Scope(op.right);
  }

  lemma {:induction false} SidesClear(op: Op, all: seq<Expr>, probe: seq<Expr>, build: seq<Expr>)
    requires op.CrossProduct? && AllClear(op, all) && AllOf(probe, all) && AllOf(build, all)
    ensures AllClear(op.left, probe) && AllClear(op.right, build)
  {
    forall i | 0 <= i < |probe| ensures ClearBelow(op.left, probe[i]) {
      var k :| 0 <= k < |all| && all[k] == probe[i];
      assert ClearBelow(op, all[k]);
    }
    forall i | 0 <= i < |build| ensures ClearBelow(op.right, build[i]) {
      var k :| 0 <= k < |all| && all[k] == build[i];
      assert ClearBelow(op, all[k]);
    }
  }

  lemma {:induction false} FilterReady(db: Database, op: Op, ps: PredicateSet)
    requires op.Filter? && PushReady(db, op, ps)
    ensures PushReady(db, op.child, ps)
    ensures !op.predicate_.Literal? ==> PushReady(db, op.child, ps.Add(op.predicate_))
  {
    forall i | 0 <= i < |ps.All()| ensures ClearBelow(op.child, ps.All()[i]) { assert ClearBelow(op, ps.All()[i]); }
    if !op.predicate_.Literal? {
      SetOkAdd(db.keys, Scope(op), ps, op.predicate_);
      AllClearAdd(op.child, ps, op.predicate_);
    }
  }

  lemma {:induction false} InputReady(db: Database, op: Op, i: nat)
    requires HasInputs(op) && PlanOk(db, op) && Planned(op) && i < |Inputs(op)|
    ensures PushReady(db, Inputs(op)[i], NONE)
  {
    if op.HashJoin? || op.CountJoin? || op.OtherJoin? {
      assert Inputs(op)[i] == if i == 0 then op.left else op.right;
    }
  }

  /** The pushed plan has the columns of the plan. */
  lemma {:induction false} PushedShape(db: Database, op: Op, ps: PredicateSet)
    requires PushReady(db, op, ps)
    ensures SameShape(db, PushedDown(op, ps), op)
    ensures !op.Filter? ==> SameShape(db, Below(op, ps), op)
    decreases op
  {
    if op.Filter? {
      FilterReady(db, op, ps);
      if !op.predicate_.Literal? {
        PushedShape(db, op.child, ps.Add(op.predicate_));
      } else if op.predicate_.value == Bool(true) {
        PushedShape(db, op.child, ps);
      }
    } else {
      if op.CrossProduct? {
        var a, b := Scope(op.left), Scope(op.right);
        SidesReady(db, op, ps);
        PushedShape(db, op.left, Chosen(Probe, a, b, ps.All()));
        PushedShape(db, op.right, Chosen(Build, a, b, ps.All()));
        if op.accumulate.Marked? { MarkedAlone(op, ps.All()); }
      } else if !IsLeaf(op) {
        var inputs := PushedInputs(op, |Inputs(op)|);
        forall i | 0 <= i < |inputs| ensures SameShape(db, inputs[i], Inputs(op)[i]) {
          InputReady(db, op, i);
          PushedShape(db, Inputs(op)[i], NONE);
        }
        WithInputsOk(db, op, inputs);
      }
      FilteredRestricts(db, ps.All(), Below(op, ps));
    }
  }

  /** Every row of a pushed plan passes the predicates. */
  lemma {:induction false} PushedPasses(db: Database, op: Op, ps: PredicateSet, row: Row)
    requires PushReady(db, op, ps)
    ensures PlanOk(db, PushedDown(op, ps)) && (Times(db, PushedDown(op, ps), row) > 0 ==> AllTrue(ps.All(), row))
    decreases op
  {
    PushedShape(db, op, ps);
    if op.Filter? {
      FilterReady(db, op, ps);
      if !op.predicate_.Literal? {
        PushedPasses(db, op.child, ps.Add(op.predicate_), row);
        AllTrueAdd(ps, op.predicate_, row);
      } else if op.predicate_.value == Bool(true) {
        PushedPasses(db, op.child, ps, row);
      }
    } else {
      FilteredRestricts(db, ps.All(), Below(op, ps));
    }
  }

  // ----- the exact condition -----

  /** Both sides of a product are pushed right. */
  ghost predicate SidesPushed(db: Database, op: Op, all: seq<Expr>)
    requires op.CrossProduct?
  {
    var a, b := Scope(op.left), Scope(op.right);
    && Restricts(db, PushedDown(op.left, Chosen(Probe, a, b, all)), op.left, Chosen(Probe, a, b, all).All())
    && Restricts(db, PushedDown(op.right, Chosen(Build, a, b, all)), op.right, Chosen(Build, a, b, all).All())
  }

  lemma {:induction false} ProductSides(db: Database, op: Op, ps: PredicateSet)
    requires op.CrossProduct? && !op.accumulate.Marked? && PushReady(db, op, ps) && SidesPushed(db, op, ps.All())
    ensures var a, b, all := Scope(op.left), Scope(op.right), ps.All();
            SidesOk(db, op, PushedDown(op.left, Chosen(Probe, a, b, all)),
                    PushedDown(op.right, Chosen(Build, a, b, all)),
                    Chosen(Probe, a, b, all).All(), Chosen(Build, a, b, all).All(), all)
  {
    ReadyClear(db, op, ps);
    ChosenOk(db.keys, Scope(op.left), Scope(op.right), ps.All());
  }

  /** A product that becomes a join has a join condition among its predicates. */
  lemma {:induction false} JoinCondition(db: Database, op: Op, ps: PredicateSet) returns (p: Expr)
    requires op.CrossProduct? && PushReady(db, op, ps) && BecomesJoin(op, ps.All())
    ensures p in ps.All() && IsCondition(Scope(op.left), Scope(op.right), p)
    ensures NameOf(p) !in Scope(op.left) + Scope(op.right)
  {
    var a, b, all := Scope(op.left), Scope(op.right), ps.All();
    ReadyClear(db, op, ps);
    ChosenOk(db.keys, a, b, all);
    var rest := Chosen(Undecided, a, b, all);
    var i :| 0 <= i < |rest.equality| && IsCondition(a, b, rest.equality[i]);
    p := rest.equality[i];
    assert rest.All()[i] == p;
    UndecidedName(a, b, p);
  }

  /** A product whose sides are pushed right is pushed right exactly if `ProductOk` holds. */
  lemma {:induction false} ProductPushedIff(db: Database, op: Op, ps: PredicateSet)
    requires op.CrossProduct? && PushReady(db, op, ps) && SidesPushed(db, op, ps.All())
    ensures Restricts(db, PushedDown(op, ps), op, ps.All()) <==> ProductOk(db, op, ps.All())
  {
    var a, b, all := Scope(op.left), Scope(op.right), ps.All();
    PushedShape(db, op, ps);
    FilteredRestrictsIff(db, all, Below(op, ps), op);
    if op.accumulate.Marked? {
      MarkedAlone(op, all);
      MarkedPushed(db, op, ps);
    } else {
      var l, r := PushedDown(op.left, Chosen(Probe, a, b, all)), PushedDown(op.right, Chosen(Build, a, b, all));
      ProductSides(db, op, ps);
      if BecomesJoin(op, all) {
        var p := JoinCondition(db, op, ps);
        ConditionSame(db, op, l, r, Chosen(Probe, a, b, all).All(), Chosen(Build, a, b, all).All(), all, p);
      } else {
        ProductSameIff(db, op, l, r, Chosen(Probe, a, b, all).All(), Chosen(Build, a, b, all).All(), all);
      }
    }
  }

  lemma {:induction false} MarkedPushed(db: Database, op: Op, ps: PredicateSet)
    requires op.CrossProduct? && ps.All() == [] && PushReady(db, op, ps) && SidesPushed(db, op, ps.All())
    ensures PlanOk(db, Below(op, ps)) && SameWhere(db, Below(op, ps), op, []) && ProductOk(db, op, [])
  {
    var rows := Rows(db, op.right);
    SameSides(db, op, Below(op, ps).left, Below(op, ps).right);
    assert rows != [] ==> AllTrue([], rows[0]);
  }

  /** Every plan that meets `PushOk` is pushed right. */
  lemma {:induction false} PushedRestricts(db: Database, op: Op, ps: PredicateSet)
    requires PushReady(db, op, ps) && PushOk(db, op, ps)
    ensures Restricts(db, PushedDown(op, ps), op, ps.All())
    decreases op
  {
    PushedShape(db, op, ps);
    if op.Filter? {
      FilterPushed(db, op, ps);
    } else if op.CrossProduct? {
      var a, b := Scope(op.left), Scope(op.right);
      SidesReady(db, op, ps);
      PushedRestricts(db, op.left, Chosen(Probe, a, b, ps.All()));
      PushedRestricts(db, op.right, Chosen(Build, a, b, ps.All()));
      ProductPushedIff(db, op, ps);
    } else if IsLeaf(op) {
      FilteredRestricts(db, ps.All(), op);
    } else {
      var inputs := PushedInputs(op, |Inputs(op)|);
      forall i | 0 <= i < |inputs| ensures Restricts(db, inputs[i], Inputs(op)[i], []) {
        InputReady(db, op, i);
        PushedRestricts(db, Inputs(op)[i], NONE);
      }
      SameInputs(db, op, inputs);
      FilteredRestricts(db, ps.All(), Below(op, ps));
      RestrictsTwice(db, PushedDown(op, ps), Below(op, ps), op, ps.All());
    }
  }

  lemma {:induction false} FilterPushed(db: Database, op: Op, ps: PredicateSet)
    requires op.Filter? && PushReady(db, op, ps) && PushOk(db, op, ps)
    ensures Restricts(db, PushedDown(op, ps), op, ps.All())
    decreases op, 0
  {
    var p, all := op.predicate_, ps.All();
    FilterReady(db, op, ps);
    if !p.Literal? {
      PushedRestricts(db, op.child, ps.Add(p));
      forall row ensures AllTrue(ps.Add(p).All(), row) <==> AllTrue(all, row) && True(p, row) {
        AllTrueAdd(ps, p, row);
      }
      ThroughFilter(db, PushedDown(op, ps), op, all, ps.Add(p).All());
    } else if p.value == Bool(true) {
      PushedRestricts(db, op.child, ps);
      ThroughFilter(db, PushedDown(op, ps), op, all, all);
    } else {
      NothingPasses(db, op, all);
    }
  }

  // ----- a row that is not due -----

  /** Three tables of one node each. */
  function ExampleDatabase(): Database {
    var table := Table([[Tuple(Data("0"), map["key" := Data("k"), "x" := Data("1")])]], "key");
    Database(map[0 := table, 1 := table, 2 := table], (_, _, _) => false, map[])
  }

  function ExampleScan(variable: string, id: nat, properties: seq<Expr>): Op {
    Scan(Property(variable, "_ID", false), [id], properties, TableScan, [])
  }

  const B_X := Property("b", "x", false)

  function IsNull(vs: seq<Value>): Value {
    Bool(|vs| == 1 && vs[0].Null?)
  }

  const B_X_IS_NULL := Function("b.x IS NULL", "IS_NULL", [B_X], IsNull)

  /** A match, an optional match with nothing in common with it, and another match whose predicate is
      about the optional one. */
  function ExamplePlan(): Op {
    Filter(B_X_IS_NULL,
           CrossProduct(Regular, CrossProduct(Optional, ExampleScan("a", 0, []), ExampleScan("b", 1, [B_X])),
                        ExampleScan("c", 2, [])))
  }

  const A_SCAN := ExampleScan("a", 0, [])
  const B_SCAN := ExampleScan("b", 1, [B_X])
  const C_SCAN := ExampleScan("c", 2, [])

  /** The scan of a table of the example gives the row of its one node. */
  lemma {:induction false} ExampleScanOk(variable: string, id: nat, properties: seq<Expr>)
    requires id < 3 && forall i :: 0 <= i < |properties| ==> properties[i] == B_X && variable == "b"
    ensures var db, op := ExampleDatabase(), ExampleScan(variable, id, properties);
            && PlanOk(db, op) && Planned(op)
            && Rows(db, op) == [ScanRow(op.node, properties, db.tables[id].blocks[0][0])]
  {
    var db, op := ExampleDatabase(), ExampleScan(variable, id, properties);
    ScanOne(db, op.node, properties, id, db.tables[id].blocks[0][0]);
    assert KeyOk(db.tables[id]);
  }

  /** Only the scan of `b` has the property. */
  lemma {:induction false} ExampleScopes()
    ensures Scope(A_SCAN) == {Prop("a", "_ID")} && Scope(C_SCAN) == {Prop("c", "_ID")}
    ensures Scope(B_SCAN) == {Prop("b", "_ID"), Prop("b", "x")}
  {
    assert Names([B_X]) == {Prop("b", "x")} by { assert NameOf([B_X][0]) in Names([B_X]); }
  }

  lemma {:induction false} ExampleTrue(row: Row)
    requires Prop("b", "x") in row && NameOf(B_X_IS_NULL) !in row
    ensures True(B_X_IS_NULL, row) <==> row[Prop("b", "x")].Null?
  {
    assert Evaluate(B_X, row) == row[Prop("b", "x")];
    var vs := seq(1, i requires 0 <= i < 1 => Evaluate([B_X][i], row));
    assert Evaluate(B_X_IS_NULL, row) == IsNull(vs);
  }

  /** Where the predicate is of one side, it has been chosen for that side alone. */
  lemma {:induction false} ExampleClear(a: set<Name>, b: set<Name>)
    requires NameOf(B_X_IS_NULL) !in a + b && (Prop("b", "x") in a <==> Prop("b", "x") !in b)
    ensures Clear(a, b, B_X_IS_NULL)
    ensures SideOf(a, b, B_X_IS_NULL) == if Prop("b", "x") in a then Probe else Build
  {
    assert Clear(a, b, B_X);
    assert B_X_IS_NULL.args[0] == B_X;
    assert Evaluable(a, B_X_IS_NULL) <==> Evaluable(a, B_X);
    assert Evaluable(b, B_X_IS_NULL) <==> Evaluable(b, B_X);
  }

  lemma {:induction false} OnePredicate(side: Side, a: set<Name>, b: set<Name>, p: Expr, op: Op)
    requires !p.Equals?
    ensures NONE.Add(p).All() == [p] && NONE.All() == [] && Filtered([p], op) == Filter(p, op)
    ensures Chosen(side, a, b, [p]) == if SideOf(a, b, p) == side then NONE.Add(p) else NONE
  {
    assert [p][..0] == [];
  }

  ghost function PushedExample(a: Op, b: Op, c: Op): Op {
    var p := B_X_IS_NULL;
    Filter(p, CrossProduct(Regular, Filter(p, CrossProduct(Optional, a, Filter(p, b))), c))
  }

  lemma {:induction false} ExampleReady()
    ensures PushReady(ExampleDatabase(), ExamplePlan(), NONE)
  {
    ExampleScanOk("a", 0, []);
    ExampleScanOk("b", 1, [B_X]);
    ExampleScanOk("c", 2, []);
    ExampleScopes();
    ReadyFilter(ExampleDatabase(), A_SCAN, B_SCAN, C_SCAN);
  }

  lemma {:induction false} ReadyFilter(db: Database, a: Op, b: Op, c: Op)
    requires PlanOk(db, a) && PlanOk(db, b) && PlanOk(db, c) && Planned(a) && Planned(b) && Planned(c)
    requires a.Scan? && b.Scan? && c.Scan? && Prop("b", "x") in Scope(b)
    requires Scope(a) !! Scope(b) && Scope(a) + Scope(b) !! Scope(c)
    requires NameOf(B_X_IS_NULL) !in Scope(a) + Scope(b) + Scope(c)
    ensures PushReady(db, Filter(B_X_IS_NULL, CrossProduct(Regular, CrossProduct(Optional, a, b), c)), NONE)
  {
    var inner := CrossProduct(Optional, a, b);
    var product := CrossProduct(Regular, inner, c);
    assert Scope(inner) == Scope(a) + Scope(b) && Scope(product) == Scope(a) + Scope(b) + Scope(c);
    ExampleClear(Scope(inner), Scope(c));
    ExampleClear(Scope(a), Scope(b));
    assert ClearBelow(a, B_X_IS_NULL) && ClearBelow(b, B_X_IS_NULL) && ClearBelow(c, B_X_IS_NULL);
    assert ClearBelow(inner, B_X_IS_NULL) && ClearBelow(product, B_X_IS_NULL);
    assert ExprOk(db.keys, Scope(product), B_X);
    assert ExprOk(db.keys, Scope(product), B_X_IS_NULL);
    assert PlanOk(db, product) && Planned(product);
  }

  lemma {:induction false} ExampleIsPushed()
    ensures PushedDown(ExamplePlan(), NONE) == PushedExample(A_SCAN, B_SCAN, C_SCAN)
  {
    var op, p := ExamplePlan(), B_X_IS_NULL;
    var product := op.child;
    ExampleScopes();
    OneProduct(product, p, Probe);
    OneProduct(product.left, p, Build);
    assert PushedDown(B_SCAN, NONE.Add(p)) == Filter(p, B_SCAN) by { OnePredicate(Build, {}, {}, p, B_SCAN); }
  }

  /** A product with one predicate, which is of one side. */
  lemma {:induction false} OneProduct(op: Op, p: Expr, side: Side)
    requires op.CrossProduct? && p == B_X_IS_NULL && NameOf(p) !in Scope(op.left) + Scope(op.right)
    requires side.Probe? || side.Build?
    requires Prop("b", "x") in Scope(op.left) <==> side.Probe?
    requires Prop("b", "x") in Scope(op.right) <==> side.Build?
    ensures PushedDown(op, NONE.Add(p)) ==
            Filter(p, CrossProduct(op.accumulate, PushedDown(op.left, if side.Probe? then NONE.Add(p) else NONE),
                                   PushedDown(op.right, if side.Build? then NONE.Add(p) else NONE)))
  {
    var a, b := Scope(op.left), Scope(op.right);
    ExampleClear(a, b);
    OnePredicate(Probe, a, b, p, Below(op, NONE.Add(p)));
    OnePredicate(Build, a, b, p, op);
    OnePredicate(Undecided, a, b, p, op);
  }

  lemma {:induction false} JoinOne(l: Row, r: Row)
    ensures JoinRows([], [l], [r]) == [l + r]
  {
    assert [l][1..] == [] && [r][1..] == [];
    assert JoinRow([], l, [r]) == JoinPair([], l, r) + JoinRow([], l, []);
  }

  lemma {:induction false} FilterOne(db: Database, op: Op, row: Row)
    requires op.Filter? && PlanOk(db, op) && Rows(db, op.child) == [row]
    ensures Rows(db, op) == if True(op.predicate_, row) then [row] else []
  {
    var p := op.predicate_;
    assert [row][1..] == [];
    assert FilterRows([row], p) == (if True(p, row) then [row] else []) + FilterRows([], p);
  }

  lemma {:induction false} ProductOne(db: Database, op: Op, l: Row, r: Row)
    requires op.CrossProduct? && !op.accumulate.Marked? && PlanOk(db, op)
    requires Rows(db, op.left) == [l] && Rows(db, op.right) == [r]
    ensures Rows(db, op) == [l + r]
  {
    JoinOne(l, r);
  }

  lemma {:induction false} ProductNone(db: Database, op: Op, l: Row)
    requires op.CrossProduct? && op.accumulate.Optional? && PlanOk(db, op)
    requires Rows(db, op.left) == [l] && Rows(db, op.right) == []
    ensures Rows(db, op) == [l + Nulls(Scope(op.right))]
  {
    JoinOne(l, Nulls(Scope(op.right)));
  }

  /** Three plans of one row each, of which the second has a value where the predicate wants a null. */
  ghost predicate OneEach(db: Database, a: Op, b: Op, c: Op, ra: Row, rb: Row, rc: Row) {
    && PlanOk(db, a) && PlanOk(db, b) && PlanOk(db, c)
    && Rows(db, a) == [ra] && Rows(db, b) == [rb] && Rows(db, c) == [rc]
    && Prop("b", "x") in rb && !rb[Prop("b", "x")].Null? && Prop("b", "x") in Scope(b) && Prop("b", "x") !in rc
    && NameOf(B_X_IS_NULL) !in ra && NameOf(B_X_IS_NULL) !in rb && NameOf(B_X_IS_NULL) !in rc
    && NameOf(B_X_IS_NULL) !in Scope(b)
  }

  /** The rows of the three scans; only the middle one has the property, and it is not null. */
  lemma {:induction false} ExampleRows() returns (ra: Row, rb: Row, rc: Row)
    ensures OneEach(ExampleDatabase(), A_SCAN, B_SCAN, C_SCAN, ra, rb, rc)
  {
    var db := ExampleDatabase();
    ExampleScopes();
    ExampleScanOk("a", 0, []);
    ExampleScanOk("b", 1, [B_X]);
    ExampleScanOk("c", 2, []);
    ra, rb, rc := Rows(db, A_SCAN)[0], Rows(db, B_SCAN)[0], Rows(db, C_SCAN)[0];
  }

  /** One row of each scan joined, and filtered. */
  lemma {:induction false} RowDue(db: Database, op: Op, ra: Row, rb: Row, rc: Row)
    requires op.Filter? && op.child.CrossProduct? && op.child.accumulate.Regular?
    requires op.child.left.CrossProduct? && op.child.left.accumulate.Optional?
    requires PlanOk(db, op) && PlanOk(db, op.child) && PlanOk(db, op.child.left)
    requires Rows(db, op.child.left.left) == [ra] && Rows(db, op.child.left.right) == [rb]
    requires Rows(db, op.child.right) == [rc] && !True(op.predicate_, ra + rb + rc)
    ensures Rows(db, op) == []
  {
    ProductOne(db, op.child.left, ra, rb);
    ProductOne(db, op.child, ra + rb, rc);
    FilterOne(db, op, ra + rb + rc);
  }

  /** With a filter on the optional side that leaves it empty. */
  lemma {:induction false} RowGiven(db: Database, op: Op, ra: Row, rc: Row)
    requires op.Filter? && op.child.CrossProduct? && op.child.accumulate.Regular?
    requires op.child.left.Filter? && op.child.left.child.CrossProduct? && op.child.left.child.accumulate.Optional?
    requires PlanOk(db, op) && PlanOk(db, op.child) && PlanOk(db, op.child.left) && PlanOk(db, op.child.left.child)
    requires Rows(db, op.child.left.child.left) == [ra] && Rows(db, op.child.left.child.right) == []
    requires var nulls := Nulls(Scope(op.child.left.child.right));
             && Rows(db, op.child.right) == [rc]
             && True(op.child.left.predicate_, ra + nulls) && True(op.predicate_, ra + nulls + rc)
    ensures |Rows(db, op)| == 1
  {
    var inner := op.child.left;
    var nulls := Nulls(Scope(inner.child.right));
    ProductNone(db, inner.child, ra);
    FilterOne(db, inner, ra + nulls);
    ProductOne(db, op.child, ra + nulls, rc);
    FilterOne(db, op, ra + nulls + rc);
  }

  lemma {:induction false} ExampleDue(db: Database, a: Op, b: Op, c: Op, ra: Row, rb: Row, rc: Row)
    requires OneEach(db, a, b, c, ra, rb, rc)
    requires PlanOk(db, Filter(B_X_IS_NULL, CrossProduct(Regular, CrossProduct(Optional, a, b), c)))
    ensures Rows(db, Filter(B_X_IS_NULL, CrossProduct(Regular, CrossProduct(Optional, a, b), c))) == []
  {
    ExampleTrue(ra + rb + rc);
    RowDue(db, Filter(B_X_IS_NULL, CrossProduct(Regular, CrossProduct(Optional, a, b), c)), ra, rb, rc);
  }

  lemma {:induction false} ExampleGiven(db: Database, a: Op, b: Op, c: Op, ra: Row, rb: Row, rc: Row)
    requires OneEach(db, a, b, c, ra, rb, rc) && PlanOk(db, PushedExample(a, b, c))
    ensures |Rows(db, PushedExample(a, b, c))| == 1
  {
    var op, nulls := PushedExample(a, b, c), Nulls(Scope(b));
    ExampleTrue(rb);
    ExampleTrue(ra + nulls);
    ExampleTrue(ra + nulls + rc);
    FilterOne(db, Filter(B_X_IS_NULL, b), rb);
    RowGiven(db, op, ra, rc);
  }

  /** No node b has a null property, so no row is due; the pushed plan gives one. */
  lemma {:induction false} NullRowAppears()
    ensures var db, op := ExampleDatabase(), ExamplePlan();
            && PushReady(db, op, NONE) && Rows(db, op) == []
            && PlanOk(db, PushedDown(op, NONE)) && |Rows(db, PushedDown(op, NONE))| == 1
  {
    ExampleReady();
    ExampleIsPushed();
    PushedShape(ExampleDatabase(), ExamplePlan(), NONE);
    var ra, rb, rc := ExampleRows();
    ExampleDue(ExampleDatabase(), A_SCAN, B_SCAN, C_SCAN, ra, rb, rc);
    ExampleGiven(ExampleDatabase(), A_SCAN, B_SCAN, C_SCAN, ra, rb, rc);
  }
}
