/** The filter push-down pass over a plan, operator by operator. */
module PushDownOptimizer {
  import opened QueryPlan
  import opened PlanFacts
  import opened ScanFacts
  import opened FilterPushDown
  import opened PushedPlan

  /** Restricting a plan is having the bag of the plan with filters on top. */
  lemma {:induction false} RestrictsFiltered(db: Database, res: Op, op: Op, ps: seq<Expr>)
    requires Restricts(db, res, op, ps) && ListOk(db.keys, Scope(op), ps)
    ensures Restricts(db, res, Filtered(ps, op), [])
  {
    FilteredRestricts(db, ps, op);
    forall row ensures Times(db, res, row) == Times(db, Filtered(ps, op), row) {
      assert Times(db, res, row) == if AllTrue(ps, row) then Times(db, op, row) else 0;
    }
  }

  /** Column predicates that follow from the filter above them change nothing. */
  lemma {:induction false} RestrictsHinted(db: Database, a: Op, b: Op, c: Op, ps: seq<Expr>)
    requires Restricts(db, a, b, ps) && PlanOk(db, c) && Scope(b) == Scope(c)
    requires SameWhere(db, b, c, ps)
    ensures Restricts(db, a, c, ps)
  {
    forall row ensures Times(db, a, row) == if AllTrue(ps, row) then Times(db, c, row) else 0 {
      assert Times(db, a, row) == if AllTrue(ps, row) then Times(db, b, row) else 0;
    }
  }

  /** The predicates say what one of them and the rest say. */
  ghost predicate Splits(all: seq<Expr>, rest: seq<Expr>, p: Expr) {
    forall row {:trigger AllTrue(rest, row)} :: AllTrue(all, row) <==> AllTrue(rest, row) && True(p, row)
  }

  /** An input as the pass leaves it. */
  ghost predicate InputPushed(db: Database, res: Op, input: Op) {
    Restricts(db, res, PushedDown(input, NONE), [])
  }

  class FilterPushDownOptimizer {
    const zoneMaps: bool
    /** Whether a predicate can be checked against the zone maps of a column. */
    const converts: (Expr, Expr) -> bool
    var predicateSet: PredicateSet

    constructor (zoneMaps: bool, converts: (Expr, Expr) -> bool, predicateSet: PredicateSet)
      ensures this.predicateSet == predicateSet
    {
      this.zoneMaps, this.converts, this.predicateSet := zoneMaps, converts, predicateSet;
    }

    /** Takes out the first comparison of the node's primary key, key on the left. */
    method PopKeyComparison(ghost keys: map<string, string>, ghost scope: set<Name>, node: Expr)
      returns (found: bool, p: Expr)
      requires node.Property? && SetOk(keys, scope, predicateSet) && forall n :: n in scope ==> n.Prop?
      modifies this
      ensures SetOk(keys, scope, predicateSet)
      ensures !found ==> predicateSet == old(predicateSet)
      ensures found ==>
                && p.Equals? && IsNodeKey(p.left, node) && PredicateOk(keys, scope, p)
                && Splits(old(predicateSet.All()), predicateSet.All(), p)
    {
      var i := 0;
      var before := predicateSet;
      while i < |predicateSet.equality|
        invariant 0 <= i <= |predicateSet.equality| && predicateSet == before
      {
        p := predicateSet.equality[i];
        assert before.All()[i] == p;
        if IsNodeKey(p.left, node) || IsNodeKey(p.right, node) {
          ghost var taken := p;
          if !IsNodeKey(p.left, node) {
            p := Swapped(p);
          }
          predicateSet := PredicateSet(before.equality[..i] + before.equality[i + 1..], before.others);
          WithoutOne(keys, scope, before, i);
          forall row ensures AllTrue(before.All(), row) <==> AllTrue(predicateSet.All(), row) && True(p, row) {
            TrueWithoutOne(before, i, row);
          }
          return true, p;
        }
        i := i + 1;
      }
      found, p := false, node;
    }

    /** Applies what is pending as filters on top. */
    method FinishPushDown(ghost db: Database, op: Op) returns (res: Op)
      requires PlanOk(db, op) && SetOk(db.keys, Scope(op), predicateSet)
      modifies this
      ensures Restricts(db, res, op, old(predicateSet.All()))
    {
      if |predicateSet.equality| == 0 && |predicateSet.others| == 0 {
        res := op;
        RestrictsSelf(db, op);
      } else {
        res := AppendFilters(db, predicateSet.All(), op);
        predicateSet := NONE;
      }
    }

    /** The predicates that can be checked against the zone maps, for every column. */
    method ColumnPredicates(columns: seq<Expr>, predicates: seq<Expr>) returns (pushed: Pushed)
      ensures forall row {:trigger PushedTrue(pushed, row)} :: AllTrue(predicates, row) ==> PushedTrue(pushed, row)
    {
      pushed := [];
      var c := 0;
      while c < |columns|
        invariant 0 <= c <= |columns|
        invariant forall i, k :: 0 <= i < |pushed| && 0 <= k < |pushed[i]| ==> pushed[i][k] in predicates
      {
        var list: seq<Expr> := [];
        var i := 0;
        while i < |predicates|
          invariant 0 <= i <= |predicates| && forall k :: 0 <= k < |list| ==> list[k] in predicates
        {
          if converts(columns[c], predicates[i]) {
            list := list + [predicates[i]];
          }
          i := i + 1;
        }
        pushed := pushed + [list];
        c := c + 1;
      }
    }

    method VisitScan(ghost db: Database, op: Op) returns (res: Op)
      requires op.Scan? && PlanOk(db, op) && Planned(op) && SetOk(db.keys, Scope(op), predicateSet)
      modifies this
      ensures Restricts(db, res, op, old(predicateSet.All()))
    {
      var all := predicateSet.All();
      var pushed: Pushed := [];
      if zoneMaps {
        pushed := ColumnPredicates(op.properties, all);
      }
      PushedScanSame(db, op, pushed, all);
      var scan := op.(pushed := pushed);
      var found, p := false, op.node;
      if |op.tables| == 1 {
        found, p := PopKeyComparison(db.keys, Scope(op), op.node);
      }
      if found && IsConstant(p.right) {
        res := FinishKeyScan(db, op, pushed, p, all);
      } else {
        if found { PutBack(db.keys, Scope(op), p, all); }
        ghost var pending := predicateSet.All();
        res := FinishPushDown(db, scan);
        RestrictsSame(db, res, scan, pending, all);
        RestrictsHinted(db, res, scan, op, all);
      }
    }

    /** The scan becomes a lookup of the key. */
    method FinishKeyScan(ghost db: Database, op: Op, pushed: Pushed, p: Expr, ghost all: seq<Expr>) returns (res: Op)
      requires op.Scan? && PlanOk(db, op) && Planned(op) && |op.tables| == 1 && SetOk(db.keys, Scope(op), predicateSet)
      requires p.Equals? && IsNodeKey(p.left, op.node) && PredicateOk(db.keys, Scope(op), p) && IsConstant(p.right)
      requires Splits(all, predicateSet.All(), p)
      modifies this
      ensures Restricts(db, res, op, all)
    {
      ghost var rest := predicateSet.All();
      KeyScanPlan(db, op, pushed, p);
      res := FinishPushDown(db, op.(pushed := pushed, scanType := PrimaryKeyScan(p.right)));
      KeyScanRestricts(db, op, pushed, p, rest, all, res);
    }

    /** A comparison that is no lookup is pending again. */
    method PutBack(ghost keys: map<string, string>, ghost scope: set<Name>, p: Expr, ghost all: seq<Expr>)
      requires SetOk(keys, scope, predicateSet) && PredicateOk(keys, scope, p) && Splits(all, predicateSet.All(), p)
      modifies this
      ensures SetOk(keys, scope, predicateSet)
      ensures forall row :: AllTrue(predicateSet.All(), row) <==> AllTrue(all, row)
    {
      SetOkAdd(keys, scope, predicateSet, p);
      forall row ensures AllTrue(predicateSet.Add(p).All(), row) <==> AllTrue(all, row) {
        AllTrueAdd(predicateSet, p, row);
      }
      predicateSet := predicateSet.Add(p);
    }

    /** Optimises every input on its own, with nothing pending. */
    method VisitInputs(ghost db: Database, op: Op) returns (inputs: seq<Op>)
      requires HasInputs(op) && PlanOk(db, op) && Planned(op)
      ensures |inputs| == |Inputs(op)|
      ensures forall i :: 0 <= i < |inputs| ==> InputPushed(db, inputs[i], Inputs(op)[i])
      decreases op, 0
    {
      inputs := [];
      var children := Inputs(op);
      var i := 0;
      while i < |children|
        invariant 0 <= i <= |children| && |inputs| == i
        invariant forall k :: 0 <= k < i ==> InputPushed(db, inputs[k], children[k])
      {
        InputReady(db, op, i);
        var optimizer := new FilterPushDownOptimizer(zoneMaps, converts, NONE);
        var input := optimizer.VisitOperator(db, children[i]);
        assert InputPushed(db, input, children[i]);
        inputs := inputs + [input];
        i := i + 1;
      }
    }

    method VisitChildren(ghost db: Database, op: Op) returns (res: Op)
      requires HasInputs(op) && !IsLeaf(op) && PushReady(db, op, predicateSet)
      modifies this
      ensures Restricts(db, res, PushedDown(op, old(predicateSet)), [])
      decreases op, 1
    {
      ghost var ps := predicateSet;
      var inputs := VisitInputs(db, op);
      InputsPushed(db, op, ps, inputs);
      res := FinishPushDown(db, WithInputs(op, inputs));
      RestrictsTwice(db, res, WithInputs(op, inputs), Below(op, ps), ps.All());
      RestrictsFiltered(db, res, Below(op, ps), ps.All());
    }

    method VisitTableFunctionCall(ghost db: Database, op: Op) returns (res: Op)
      requires op.Other? && PlanOk(db, op) && Planned(op) && SetOk(db.keys, Scope(op), predicateSet)
      modifies this
      ensures Restricts(db, res, op, old(predicateSet.All()))
    {
      var all := predicateSet.All();
      var hints := ColumnPredicates(op.stored, all);
      HintedTimes(db, op, hints, all);
      res := FinishPushDown(db, op.(hints := hints));
      RestrictsHinted(db, res, op.(hints := hints), op, all);
    }

    method VisitExtend(ghost db: Database, op: Op) returns (res: Op)
      requires op.Other? && op.kind.Extend? && PushReady(db, op, predicateSet)
      modifies this
      ensures Restricts(db, res, PushedDown(op, old(predicateSet)), [])
      decreases op, 2
    {
      if op.kind.recursive || !zoneMaps {
        res := VisitChildren(db, op);
      } else {
        ghost var ps := predicateSet;
        var hints := ColumnPredicates(op.stored, predicateSet.All());
        var inputs := VisitInputs(db, op);
        InputsPushed(db, op, ps, inputs);
        var bare := WithInputs(op, inputs);
        HintedTimes(db, bare, hints, ps.All());
        res := FinishPushDown(db, bare.(hints := hints));
        RestrictsHinted(db, res, bare.(hints := hints), bare, ps.All());
        RestrictsTwice(db, res, bare, Below(op, ps), ps.All());
        RestrictsFiltered(db, res, Below(op, ps), ps.All());
      }
    }

    method VisitFilter(ghost db: Database, op: Op) returns (res: Op)
      requires op.Filter? && PushReady(db, op, predicateSet)
      modifies this
      ensures Restricts(db, res, PushedDown(op, old(predicateSet)), [])
      decreases op, 2
    {
      var p := op.predicate_;
      FilterReady(db, op, predicateSet);
      if p.Literal? && (p.value.Null? || p.value == Bool(false)) {
        res := EmptyResult(Scope(op));
      } else {
        if !p.Literal? {
          predicateSet := predicateSet.Add(p);
        }
        res := VisitOperator(db, op.child);
      }
    }

    /** The sides get the predicates they can evaluate. Every product is treated alike, whatever it does
        with an empty build side. */
    method VisitCrossProduct(ghost db: Database, op: Op) returns (res: Op)
      requires op.CrossProduct? && PushReady(db, op, predicateSet)
      modifies this
      ensures Restricts(db, res, PushedDown(op, old(predicateSet)), [])
      ensures SidesPushed(db, op, old(predicateSet.All())) ==>
                (Restricts(db, res, op, old(predicateSet.All())) <==> ProductOk(db, op, old(predicateSet.All())))
      decreases op, 2
    {
      ghost var ps := predicateSet;
      var all := predicateSet.All();
      var a, b := Scope(op.left), Scope(op.right);
      ReadyClear(db, op, ps);
      SidesReady(db, op, ps);
      PushedShape(db, op, ps);
      var probe, build, remaining := SplitPredicates(db.keys, all, a, b);
      var probeOptimizer := new FilterPushDownOptimizer(zoneMaps, converts, probe);
      var left := probeOptimizer.VisitOperator(db, op.left);
      var buildOptimizer := new FilterPushDownOptimizer(zoneMaps, converts, build);
      var right := buildOptimizer.VisitOperator(db, op.right);
      SidesShape(db, op, ps);
      var conditions, predicates := JoinConditions(remaining.equality, Scope(left), Scope(right));
      if |conditions| == 0 {
        SameSides(db, Below(op, ps), left, right);
        res := FinishPushDown(db, CrossProduct(op.accumulate, left, right));
        RestrictsTwice(db, res, CrossProduct(op.accumulate, left, right), Below(op, ps), all);
      } else {
        var join := HashJoin(conditions, left, right);
        JoinUnmarked(op, ps);
        RestOk(db.keys, a + b, remaining, predicates);
        res := AppendFilters(db, predicates + remaining.others, join);
        JoinRestricts(db, op, ps, left, right, conditions, predicates, res);
      }
      RestrictsFiltered(db, res, Below(op, ps), all);
      ProductRestrictsIff(db, op, ps, res);
    }

    /** For every plan and whatever is pending the result has the bag of the pushed plan, and where that
        is the plan restricted to what is pending, so is the result. */
    method VisitOperator(ghost db: Database, op: Op) returns (res: Op)
      requires PushReady(db, op, predicateSet)
      modifies this
      ensures Restricts(db, res, PushedDown(op, old(predicateSet)), [])
      ensures PushOk(db, op, old(predicateSet)) ==> Restricts(db, res, op, old(predicateSet.All()))
      decreases op, 3
    {
      ghost var ps := predicateSet;
      match op {
        case Filter(_, _) => res := VisitFilter(db, op);
        case CrossProduct(_, _, _) => res := VisitCrossProduct(db, op);
        case Scan(_, _, _, _, _) =>
          res := VisitScan(db, op);
          RestrictsFiltered(db, res, op, ps.All());
        case Other(Extend(_), _, _, _, _, _) => res := VisitExtend(db, op);
        case Other(TableFunctionCall, _, _, _, _, _) =>
          res := VisitTableFunctionCall(db, op);
          RestrictsFiltered(db, res, op, ps.All());
        case _ => res := VisitChildren(db, op);
      }
      if PushOk(db, op, ps) { RestrictedIfOk(db, op, ps, res); }
    }
  }

  lemma {:induction false} RestrictedIfOk(db: Database, op: Op, ps: PredicateSet, res: Op)
    requires PushReady(db, op, ps) && PushOk(db, op, ps) && Restricts(db, res, PushedDown(op, ps), [])
    ensures Restricts(db, res, op, ps.All())
  {
    PushedRestricts(db, op, ps);
    SameRestricts(db, res, PushedDown(op, ps), op, ps.All());
  }

  lemma {:induction false} SameRestricts(db: Database, a: Op, b: Op, op: Op, ps: seq<Expr>)
    requires Restricts(db, a, b, []) && PlanOk(db, op)
    ensures Restricts(db, a, op, ps) <==> Restricts(db, b, op, ps)
  {
    forall row ensures Times(db, a, row) == Times(db, b, row) {}
  }

  lemma {:induction false} ProductRestrictsIff(db: Database, op: Op, ps: PredicateSet, res: Op)
    requires op.CrossProduct? && PushReady(db, op, ps) && Restricts(db, res, PushedDown(op, ps), [])
    ensures SidesPushed(db, op, ps.All()) ==> (Restricts(db, res, op, ps.All()) <==> ProductOk(db, op, ps.All()))
  {
    if SidesPushed(db, op, ps.All()) {
      ProductPushedIff(db, op, ps);
      SameRestricts(db, res, PushedDown(op, ps), op, ps.All());
    }
  }

  lemma {:induction false} InputsPushed(db: Database, op: Op, ps: PredicateSet, inputs: seq<Op>)
    requires HasInputs(op) && !IsLeaf(op) && PushReady(db, op, ps) && |inputs| == |Inputs(op)|
    requires forall i :: 0 <= i < |inputs| ==> InputPushed(db, inputs[i], Inputs(op)[i])
    ensures SameShape(db, Below(op, ps), op) && Restricts(db, WithInputs(op, inputs), Below(op, ps), [])
  {
    PushedShape(db, op, ps);
    SameInputs(db, Below(op, ps), inputs);
  }

  lemma {:induction false} SidesShape(db: Database, op: Op, ps: PredicateSet)
    requires op.CrossProduct? && PushReady(db, op, ps)
    ensures SameShape(db, Below(op, ps).left, op.left) && SameShape(db, Below(op, ps).right, op.right)
  {
    var a, b := Scope(op.left), Scope(op.right);
    SidesReady(db, op, ps);
    PushedShape(db, op.left, Chosen(Probe, a, b, ps.All()));
    PushedShape(db, op.right, Chosen(Build, a, b, ps.All()));
  }

  lemma {:induction false} JoinUnmarked(op: Op, ps: PredicateSet)
    requires op.CrossProduct? && AllClear(op, ps.All()) && BecomesJoin(op, ps.All())
    ensures !op.accumulate.Marked? && Scope(op) == Scope(op.left) + Scope(op.right)
  {
    if op.accumulate.Marked? { MarkedAlone(op, ps.All()); }
  }

  /** The rows of a pushed side pass its predicates, so only those of neither side are left to check. */
  lemma {:induction false} SidesPass(db: Database, op: Op, ps: PredicateSet, row: Row)
    requires op.CrossProduct? && PushReady(db, op, ps) && row.Keys == Scope(op.left) + Scope(op.right)
    ensures SameShape(db, Below(op, ps).left, op.left) && SameShape(db, Below(op, ps).right, op.right)
    ensures var a, b, all := Scope(op.left), Scope(op.right), ps.All();
            && (Times(db, Below(op, ps).left, Restrict(row, a)) > 0 ==> AllTrue(Chosen(Probe, a, b, all).All(), row))
            && (Times(db, Below(op, ps).right, Restrict(row, b)) > 0 ==> AllTrue(Chosen(Build, a, b, all).All(), row))
  {
    var a, b, all := Scope(op.left), Scope(op.right), ps.All();
    SidesReady(db, op, ps);
    SidesShape(db, op, ps);
    ReadyClear(db, op, ps);
    ChosenOk(db.keys, a, b, all);
    PushedPasses(db, op.left, Chosen(Probe, a, b, all), Restrict(row, a));
    PushedPasses(db, op.right, Chosen(Build, a, b, all), Restrict(row, b));
    AllTrueSide(a, b, Chosen(Probe, a, b, all).All(), row);
    assert b + a == a + b;
    AllTrueSide(b, a, Chosen(Build, a, b, all).All(), row);
  }

  /** A join of the pushed sides on the conditions among the predicates, with the remaining ones on top. */
  ghost predicate JoinOf(db: Database, op: Op, ps: PredicateSet, left: Op, right: Op, conditions: seq<(Expr, Expr)>,
                         predicates: seq<Expr>, res: Op) {
    && op.CrossProduct? && !op.accumulate.Marked? && PushReady(db, op, ps) && BecomesJoin(op, ps.All())
    && SameShape(db, Below(op, ps), op)
    && SameShape(db, Below(op, ps).left, op.left) && SameShape(db, Below(op, ps).right, op.right)
    && Restricts(db, left, Below(op, ps).left, []) && Restricts(db, right, Below(op, ps).right, [])
    && var rest := Chosen(Undecided, Scope(op.left), Scope(op.right), ps.All());
    && ConditionsOk(Scope(op.left), Scope(op.right), rest.equality, conditions, predicates)
    && Restricts(db, res, HashJoin(conditions, left, right), predicates + rest.others) && SameShape(db, res, op)
  }

  /** What is left of the equalities, and the other predicates, are what the join does not check. */
  lemma {:induction false} JoinRestricts(db: Database, op: Op, ps: PredicateSet, left: Op, right: Op,
                                         conditions: seq<(Expr, Expr)>, predicates: seq<Expr>, res: Op)
    requires JoinOf(db, op, ps, left, right, conditions, predicates, res)
    ensures Restricts(db, res, Below(op, ps), ps.All())
  {
    var below, all := Below(op, ps), ps.All();
    forall row ensures Times(db, res, row) == if AllTrue(all, row) then Times(db, below, row) else 0 {
      JoinedRowTimes(db, op, ps, left, right, conditions, predicates, res, row);
    }
  }

  lemma {:induction false} JoinedRowTimes(db: Database, op: Op, ps: PredicateSet, left: Op, right: Op,
                                          conditions: seq<(Expr, Expr)>, predicates: seq<Expr>, res: Op, row: Row)
    requires JoinOf(db, op, ps, left, right, conditions, predicates, res)
    ensures Times(db, res, row) == if AllTrue(ps.All(), row) then Times(db, Below(op, ps), row) else 0
  {
    var a, b, all := Scope(op.left), Scope(op.right), ps.All();
    var rest, join := Chosen(Undecided, a, b, all), HashJoin(conditions, left, right);
    assert Times(db, res, row) == if AllTrue(predicates + rest.others, row) then Times(db, join, row) else 0;
    JoinedTimes(db, conditions, left, right, row);
    CrossTimes(db, Below(op, ps), row);
    if row.Keys == a + b {
      var n, m := Times(db, Below(op, ps).left, Restrict(row, a)), Times(db, Below(op, ps).right, Restrict(row, b));
      assert Times(db, left, Restrict(row, a)) == n && Times(db, right, Restrict(row, b)) == m;
      SidesPass(db, op, ps, row);
      RestSays(db, op, ps, conditions, predicates, row);
      NoneTimes(n, m);
    }
  }

  lemma {:induction false} NoneTimes(n: nat, m: nat)
    ensures n == 0 || m == 0 ==> n * m == 0
  {
  }

  /** The predicates say what those of the sides, the join conditions and the remaining ones say. */
  lemma {:induction false} RestSays(db: Database, op: Op, ps: PredicateSet, conditions: seq<(Expr, Expr)>,
                                    predicates: seq<Expr>, row: Row)
    requires op.CrossProduct? && PushReady(db, op, ps) && row.Keys == Scope(op.left) + Scope(op.right)
    requires ConditionsOk(Scope(op.left), Scope(op.right),
                          Chosen(Undecided, Scope(op.left), Scope(op.right), ps.All()).equality, conditions, predicates)
    ensures var a, b, all := Scope(op.left), Scope(op.right), ps.All();
            AllTrue(all, row) <==>
            && AllTrue(Chosen(Probe, a, b, all).All(), row) && AllTrue(Chosen(Build, a, b, all).All(), row)
            && Joins(conditions, a, b, row) && AllTrue(predicates + Chosen(Undecided, a, b, all).others, row)
  {
    var a, b, all := Scope(op.left), Scope(op.right), ps.All();
    var rest := Chosen(Undecided, a, b, all);
    ReadyClear(db, op, ps);
    ChosenOk(db.keys, a, b, all);
    AllTrueConcat(predicates, rest.others, row);
    AllTrueConcat(rest.equality, rest.others, row);
    assert AllTrue(rest.equality, row) <==> Joins(conditions, a, b, row) && AllTrue(predicates, row);
  }

  /** The conditions and the rest together say what the equalities say. */
  ghost predicate ConditionsOk(a: set<Name>, b: set<Name>, equality: seq<Expr>, conditions: seq<(Expr, Expr)>,
                               rest: seq<Expr>) {
    forall row: Row {:trigger AllTrue(equality, row)} :: row.Keys == a + b ==>
      (AllTrue(equality, row) <==> Joins(conditions, a, b, row) && AllTrue(rest, row))
  }

  lemma {:induction false} RestOk(keys: map<string, string>, scope: set<Name>, remaining: PredicateSet, rest: seq<Expr>)
    requires SetOk(keys, scope, remaining) && forall i :: 0 <= i < |rest| ==> rest[i] in remaining.equality
    ensures ListOk(keys, scope, rest + remaining.others)
  {
    forall i | 0 <= i < |rest + remaining.others| ensures PredicateOk(keys, scope, (rest + remaining.others)[i]) {
      if i < |rest| {
        assert rest[i] in remaining.equality;
        var k :| 0 <= k < |remaining.equality| && remaining.equality[k] == rest[i];
        assert remaining.All()[k] == rest[i];
      } else {
        assert remaining.All()[|remaining.equality| + i - |rest|] == remaining.others[i - |rest|];
      }
    }
  }

  /** Sorts predicates by the side of a product that can evaluate them. */
  method SplitPredicates(ghost keys: map<string, string>, ps: seq<Expr>, a: set<Name>, b: set<Name>)
    returns (probe: PredicateSet, build: PredicateSet, remaining: PredicateSet)
    requires a !! b && ListOk(keys, a + b, ps) && forall i :: 0 <= i < |ps| ==> Clear(a, b, ps[i])
    ensures probe == Chosen(Probe, a, b, ps) && build == Chosen(Build, a, b, ps)
    ensures remaining == Chosen(Undecided, a, b, ps) && SplitOk(ps, probe, build, remaining)
    ensures SetOk(keys, a, probe) && SetOk(keys, b, build) && SetOk(keys, a + b, remaining)
    ensures OfSide(a, b, probe.All()) && OfSide(b, a, build.All()) && AllUndecided(a, b, remaining.equality)
  {
    probe, build, remaining := NONE, NONE, NONE;
    var i := 0;
    while i < |ps|
      invariant 0 <= i <= |ps| && probe == Chosen(Probe, a, b, ps[..i]) && build == Chosen(Build, a, b, ps[..i])
      invariant remaining == Chosen(Undecided, a, b, ps[..i])
    {
      var p := ps[i];
      var inProbe, inBuild := Evaluable(a, p), Evaluable(b, p);
      assert ps[..i + 1][..i] == ps[..i];
      if inProbe && !inBuild {
        probe := probe.Add(p);
      } else if !inProbe && inBuild {
        build := build.Add(p);
      } else {
        remaining := remaining.Add(p);
      }
      i := i + 1;
    }
    assert ps[..i] == ps;
    ChosenOk(keys, a, b, ps);
    forall i | 0 <= i < |remaining.equality|
      ensures Clear(a, b, remaining.equality[i]) && SideOf(a, b, remaining.equality[i]).Undecided?
    {
      assert remaining.All()[i] == remaining.equality[i];
    }
  }

  lemma {:induction false} ConditionAdd(a: set<Name>, b: set<Name>, equality: seq<Expr>, conditions: seq<(Expr, Expr)>,
                                        rest: seq<Expr>,
                                        p: Expr, l: Expr, r: Expr)
    requires a !! b && ConditionsOk(a, b, equality, conditions, rest) && p.Equals? && NameOf(p) !in a + b
    requires (l, r) == (p.left, p.right) || (l, r) == (p.right, p.left)
    requires NameOf(l) in a && NameOf(r) in b
    ensures ConditionsOk(a, b, equality + [p], conditions + [(l, r)], rest)
  {
    forall row: Row | row.Keys == a + b
      ensures AllTrue(equality + [p], row) <==> Joins(conditions + [(l, r)], a, b, row) && AllTrue(rest, row)
    {
      OneMoreTrue(equality, p, row);
      ConditionTrue(a, b, p, l, r, row);
      MatchesAdd(conditions, (l, r), Restrict(row, a), Restrict(row, b));
      assert AllTrue(equality, row) <==> Joins(conditions, a, b, row) && AllTrue(rest, row);
    }
  }

  lemma {:induction false} RestAdd(a: set<Name>, b: set<Name>, equality: seq<Expr>, conditions: seq<(Expr, Expr)>,
                                   rest: seq<Expr>, p: Expr)
    requires ConditionsOk(a, b, equality, conditions, rest)
    ensures ConditionsOk(a, b, equality + [p], conditions, rest + [p])
  {
    forall row: Row | row.Keys == a + b
      ensures AllTrue(equality + [p], row) <==> Joins(conditions, a, b, row) && AllTrue(rest + [p], row)
    {
      OneMoreTrue(equality, p, row);
      OneMoreTrue(rest, p, row);
      assert AllTrue(equality, row) <==> Joins(conditions, a, b, row) && AllTrue(rest, row);
    }
  }

  lemma {:induction false} OneMoreTrue(ps: seq<Expr>, p: Expr, row: Row)
    ensures AllTrue(ps + [p], row) <==> AllTrue(ps, row) && True(p, row)
  {
    AllTrueConcat(ps, [p], row);
    assert AllTrue([p], row) <==> True(p, row) by { assert [p][0] == p; }
  }

  lemma {:induction false} MatchesAdd(conditions: seq<(Expr, Expr)>, c: (Expr, Expr), l: Row, r: Row)
    ensures Matches(conditions + [c], l, r) <==> Matches(conditions, l, r) && KeyMatches(c, l, r)
  {
    var more := conditions + [c];
    assert more[|conditions|] == c;
    assert forall i :: 0 <= i < |conditions| ==> more[i] == conditions[i];
  }

  /** Turns equalities between columns of the two sides into join conditions. */
  method JoinConditions(equality: seq<Expr>, a: set<Name>, b: set<Name>)
    returns (conditions: seq<(Expr, Expr)>, rest: seq<Expr>)
    requires a !! b
    requires AllUndecided(a, b, equality) && forall i :: 0 <= i < |equality| ==> equality[i].Equals?
    ensures conditions == [] <==> !HasCondition(a, b, equality)
    ensures ConditionsOk(a, b, equality, conditions, rest)
    ensures forall i :: 0 <= i < |rest| ==> rest[i] in equality
  {
    conditions, rest := [], [];
    var i := 0;
    while i < |equality|
      invariant 0 <= i <= |equality| && ConditionsOk(a, b, equality[..i], conditions, rest)
      invariant conditions == [] <==> forall k :: 0 <= k < i ==> !IsCondition(a, b, equality[k])
      invariant forall k :: 0 <= k < |rest| ==> rest[k] in equality
    {
      var p := equality[i];
      UndecidedName(a, b, p);
      assert equality[..i] + [p] == equality[..i + 1];
      if NameOf(p.left) in a && NameOf(p.right) in b {
        ConditionAdd(a, b, equality[..i], conditions, rest, p, p.left, p.right);
        conditions := conditions + [(p.left, p.right)];
      } else if NameOf(p.right) in a && NameOf(p.left) in b {
        ConditionAdd(a, b, equality[..i], conditions, rest, p, p.right, p.left);
        conditions := conditions + [(p.right, p.left)];
      } else {
        RestAdd(a, b, equality[..i], conditions, rest, p);
        rest := rest + [p];
      }
      i := i + 1;
    }
    assert equality[..i] == equality;
  }

  lemma {:induction false} RestrictsSame(db: Database, res: Op, op: Op, ps: seq<Expr>, qs: seq<Expr>)
    requires Restricts(db, res, op, ps) && forall row :: AllTrue(ps, row) <==> AllTrue(qs, row)
    ensures Restricts(db, res, op, qs)
  {
    forall row ensures Times(db, res, row) == if AllTrue(qs, row) then Times(db, op, row) else 0 {
      assert Times(db, res, row) == if AllTrue(ps, row) then Times(db, op, row) else 0;
    }
  }

  lemma {:induction false} PushedScanSame(db: Database, op: Op, pushed: Pushed, ps: seq<Expr>)
    requires op.Scan? && PlanOk(db, op) && Planned(op)
    requires forall row {:trigger PushedTrue(pushed, row)} :: AllTrue(ps, row) ==> PushedTrue(pushed, row)
    ensures PlanOk(db, op.(pushed := pushed)) && SameWhere(db, op.(pushed := pushed), op, ps)
  {
    var scan := op.(pushed := pushed);
    forall row | AllTrue(ps, row) ensures Times(db, scan, row) == Times(db, op, row) {
      assert PushedTrue(pushed, row);
      PushedScanTimes(db, op, pushed, row);
    }
  }

  lemma {:induction false} KeyScanPlan(db: Database, scan: Op, pushed: Pushed, p: Expr)
    requires scan.Scan? && PlanOk(db, scan) && Planned(scan) && |scan.tables| == 1
    requires p.Equals? && IsNodeKey(p.left, scan.node) && ExprOk(db.keys, Scope(scan), p) && IsConstant(p.right)
    ensures KeyComparison(db, scan, p)
    ensures PlanOk(db, scan.(pushed := pushed, scanType := PrimaryKeyScan(p.right)))
  {
    assert forall n :: n in Scope(scan) ==> n.Prop?;
    assert NameOf(p) !in Scope(scan);
  }

  lemma {:induction false} KeyScanRestricts(db: Database, scan: Op, pushed: Pushed, p: Expr, rest: seq<Expr>,
                                            all: seq<Expr>, res: Op)
    requires KeyComparison(db, scan, p) && Planned(scan)
    requires Restricts(db, res, scan.(pushed := pushed, scanType := PrimaryKeyScan(p.right)), rest)
    requires Splits(all, rest, p)
    ensures Restricts(db, res, scan, all)
  {
    var keyed := scan.(pushed := pushed, scanType := PrimaryKeyScan(p.right));
    forall row ensures Times(db, res, row) == if AllTrue(all, row) then Times(db, scan, row) else 0 {
      assert Times(db, res, row) == if AllTrue(rest, row) then Times(db, keyed, row) else 0;
      KeyScanTimes(db, scan, p, row);
      assert Rows(db, keyed) == Rows(db, scan.(scanType := PrimaryKeyScan(p.right)));
    }
  }

  lemma {:induction false} HintedTimes(db: Database, op: Op, hints: Pushed, ps: seq<Expr>)
    requires op.Other? && PlanOk(db, op) && op.hints == []
    requires forall row {:trigger PushedTrue(hints, row)} :: AllTrue(ps, row) ==> PushedTrue(hints, row)
    ensures PlanOk(db, op.(hints := hints)) && SameWhere(db, op.(hints := hints), op, ps)
  {
    forall row | AllTrue(ps, row) ensures Times(db, op.(hints := hints), row) == Times(db, op, row) {
      assert PushedTrue(hints, row);
    }
  }

  lemma {:induction false} WithoutOne(keys: map<string, string>, scope: set<Name>, ps: PredicateSet, i: nat)
    requires SetOk(keys, scope, ps) && i < |ps.equality|
    ensures SetOk(keys, scope, PredicateSet(ps.equality[..i] + ps.equality[i + 1..], ps.others))
  {
    var rest := PredicateSet(ps.equality[..i] + ps.equality[i + 1..], ps.others);
    forall k | 0 <= k < |rest.All()| ensures PredicateOk(keys, scope, rest.All()[k]) {
      assert rest.All()[k] == ps.All()[if k < i then k else k + 1];
    }
  }

  lemma {:induction false} TrueWithoutOne(ps: PredicateSet, i: nat, row: Row)
    requires i < |ps.equality|
    ensures AllTrue(ps.All(), row) <==>
            AllTrue(PredicateSet(ps.equality[..i] + ps.equality[i + 1..], ps.others).All(), row) &&
              True(ps.equality[i], row)
  {
    var a, p, b := ps.equality[..i], ps.equality[i], ps.equality[i + 1..] + ps.others;
    assert ps.All() == a + ([p] + b);
    assert PredicateSet(ps.equality[..i] + ps.equality[i + 1..], ps.others).All() == a + b;
    AllTrueConcat(a, [p] + b, row);
    AllTrueConcat([p], b, row);
    AllTrueConcat(a, b, row);
    assert AllTrue([p], row) <==> True(p, row) by { assert [p][0] == p; }
  }
}
