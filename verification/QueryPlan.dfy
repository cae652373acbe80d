/** Logical plans and the bags of rows they stand for. */
module QueryPlan {

  // ----- expressions -----

  datatype Value = Null | Bool(b: bool) | Data(text: string)

  /** The unique name of an expression. */
  datatype Name = Prop(variable: string, property: string) | Text(text: string)

  datatype Expr =
    | Property(variable: string, property: string, primaryKey: bool)
    | Literal(text: string, value: Value)
    | Parameter(text: string, value: Value)
    | Equals(text: string, left: Expr, right: Expr)
    | Function(text: string, name: string, args: seq<Expr>, body: seq<Value> -> Value)

  function NameOf(e: Expr): Name {
    if e.Property? then Prop(e.variable, e.property) else Text(e.text)
  }

  type Row = map<Name, Value>

  /** Equality in three-valued logic. */
  function EqualValues(a: Value, b: Value): Value {
    if a.Null? || b.Null? then Null else Bool(a == b)
  }

  /** An expression that is a column of the row is read from it. */
  function Evaluate(e: Expr, row: Row): Value {
    if NameOf(e) in row then row[NameOf(e)]
    else match e
      case Property(_, _, _) => Null
      case Literal(_, v) => v
      case Parameter(_, v) => v
      case Equals(_, l, r) => EqualValues(Evaluate(l, row), Evaluate(r, row))
      case Function(_, _, args, body) => body(seq(|args|, i requires 0 <= i < |args| => Evaluate(args[i], row)))
  }

  predicate True(e: Expr, row: Row) {
    Evaluate(e, row) == Bool(true)
  }

  predicate AllTrue(ps: seq<Expr>, row: Row) {
    forall i :: 0 <= i < |ps| ==> True(ps[i], row)
  }

  /** Whether a schema with these columns can evaluate an expression. A parameter counts only as a
      column, like any other expression without children. */
  predicate Evaluable(scope: set<Name>, e: Expr) {
    NameOf(e) in scope ||
    match e
    case Property(_, _, _) => false
    case Literal(_, _) => true
    case Parameter(_, _) => false
    case Equals(_, l, r) => Evaluable(scope, l) && Evaluable(scope, r)
    case Function(_, _, args, _) => |args| > 0 && forall i :: 0 <= i < |args| ==> Evaluable(scope, args[i])
  }

  /** Every property an evaluation can reach is a column, and flags and shapes are as the binder makes
      them: a primary key flag is on the key of the variable's table, a cast has one argument, and a
      literal is not a column. */
  ghost predicate ExprOk(keys: map<string, string>, scope: set<Name>, e: Expr) {
    && (e.Literal? ==> NameOf(e) !in scope)
    && (e.Property? ==> NameOf(e) in scope && (e.primaryKey ==> e.variable in keys && keys[e.variable] == e.property))
    && (NameOf(e) in scope ||
        match e
        case Equals(_, l, r) => ExprOk(keys, scope, l) && ExprOk(keys, scope, r)
        case Function(_, name, args, _) =>
          (name == "CAST" ==> |args| == 1) && forall i :: 0 <= i < |args| ==> ExprOk(keys, scope, args[i])
        case _ => true)
  }

  predicate IsConstant(e: Expr) {
    match e
    case Literal(_, _) => true
    case Parameter(_, _) => true
    case Function(_, name, args, _) => name == "CAST" && |args| > 0 && IsConstant(args[0])
    case _ => false
  }

  // ----- plans -----

  datatype ScanType = TableScan | PrimaryKeyScan(key: Expr)
  datatype JoinType = Left | Mark

  /** What a product does with an empty build side: nothing, or one row of nulls. A marked product also
      says in a column of its own whether the build side had rows. */
  datatype Accumulate = Regular | Optional | Marked(mark: Name)

  datatype Kind = Extend(recursive: bool) | TableFunctionCall | Unhandled

  /** Column predicates, one list per stored column. They only say which blocks may be skipped. */
  type Pushed = seq<seq<Expr>>

  datatype Op =
    | Scan(node: Expr, tables: seq<nat>, properties: seq<Expr>, scanType: ScanType, pushed: Pushed)
    | Filter(predicate_: Expr, child: Op)
    | CrossProduct(accumulate: Accumulate, left: Op, right: Op)
    | HashJoin(conditions: seq<(Expr, Expr)>, left: Op, right: Op)
    | CountJoin(conditions: seq<(Expr, Expr)>, count: Name, left: Op, right: Op)
    | OtherJoin(joinType: JoinType, columns: set<Name>, join: (multiset<Row>, multiset<Row>) -> seq<Row>, left: Op,
                right: Op)
    | EmptyResult(columns: set<Name>)
    | Other(kind: Kind, stored: seq<Expr>, hints: Pushed, columns: set<Name>,
            run: (seq<multiset<Row>>, Pushed) -> seq<Row>, inputs: seq<Op>)

  function Names(es: seq<Expr>): set<Name> {
    set i | 0 <= i < |es| :: NameOf(es[i])
  }

  function Scope(op: Op): set<Name> {
    match op
    case Scan(node, _, properties, _, _) => {NameOf(node)} + Names(properties)
    case Filter(_, c) => Scope(c)
    case CrossProduct(accumulate, l, r) => Scope(l) + (Scope(r) + Marks(accumulate))
    case HashJoin(_, l, r) => Scope(l) + Scope(r)
    case CountJoin(_, _, l, r) => Scope(l) + Scope(r)
    case OtherJoin(_, columns, _, _, _) => columns
    case EmptyResult(columns) => columns
    case Other(_, _, _, columns, _, _) => columns
  }

  function Marks(accumulate: Accumulate): set<Name> {
    if accumulate.Marked? then {accumulate.mark} else {}
  }

  // ----- stored tables -----

  datatype Tuple = Tuple(id: Value, values: map<string, Value>)
  datatype Table = Table(blocks: seq<seq<Tuple>>, primaryKey: string)

  /** The stored tables, the zone maps' verdict on a block, and each node variable's primary key. */
  datatype Database = Database(tables: map<nat, Table>, skips: (nat, nat, Pushed) -> bool, keys: map<string, string>)

  function ValueIn(t: Tuple, property: string): Value {
    if property in t.values then t.values[property] else Null
  }

  /** The row a scan makes of a stored tuple. */
  function ScanRow(node: Expr, properties: seq<Expr>, t: Tuple): Row
    requires node.Property? && forall i :: 0 <= i < |properties| ==> properties[i].Property?
  {
    map n | n in Names(properties) + {NameOf(node)} ::
      if n == NameOf(node) then t.id else if n.Prop? then ValueIn(t, n.property) else Null
  }

  function ScanRows(node: Expr, properties: seq<Expr>, ts: seq<Tuple>): (r: seq<Row>)
    requires node.Property? && forall i :: 0 <= i < |properties| ==> properties[i].Property?
  {
    if ts == [] then [] else [ScanRow(node, properties, ts[0])] + ScanRows(node, properties, ts[1..])
  }

  /** The tuples of a table from block `k` on, without the blocks that are skipped. */
  function Kept(db: Database, id: nat, pushed: Pushed, k: nat): seq<Tuple>
    requires id in db.tables && k <= |db.tables[id].blocks|
    decreases |db.tables[id].blocks| - k
  {
    var blocks := db.tables[id].blocks;
    if k == |blocks| then []
    else (if db.skips(id, k, pushed) then [] else blocks[k]) + Kept(db, id, pushed, k + 1)
  }

  function AllTuples(t: Table): seq<Tuple> {
    Joined(t.blocks)
  }

  function Joined(blocks: seq<seq<Tuple>>): seq<Tuple> {
    if blocks == [] then [] else blocks[0] + Joined(blocks[1..])
  }

  function ScanTables(db: Database, node: Expr, properties: seq<Expr>, tables: seq<nat>, pushed: Pushed): seq<Row>
    requires node.Property? && forall i :: 0 <= i < |properties| ==> properties[i].Property?
    requires forall i :: 0 <= i < |tables| ==> tables[i] in db.tables
  {
    if tables == [] then []
    else
      ScanRows(node, properties, Kept(db, tables[0], pushed, 0)) +
      ScanTables(db, node, properties, tables[1..], pushed)
  }

  /** The tuples with a given value of a property. */
  function Having(ts: seq<Tuple>, property: string, v: Value): seq<Tuple> {
    if ts == [] then []
    else (if ValueIn(ts[0], property) == v then [ts[0]] else []) + Having(ts[1..], property, v)
  }

  /** An index lookup gives one tuple, or none for null and for keys that are not there. */
  function Lookup(t: Table, v: Value): seq<Tuple> {
    if v.Null? then []
    else var found := Having(AllTuples(t), t.primaryKey, v);
         if found == [] then [] else [found[0]]
  }

  // ----- the bag of a plan -----

  function FilterRows(rows: seq<Row>, p: Expr): seq<Row> {
    if rows == [] then []
    else (if True(p, rows[0]) then [rows[0]] else []) + FilterRows(rows[1..], p)
  }

  /** Join keys match if both are there and equal; null keys match nothing. */
  predicate Matches(conditions: seq<(Expr, Expr)>, l: Row, r: Row) {
    forall i :: 0 <= i < |conditions| ==> KeyMatches(conditions[i], l, r)
  }

  predicate KeyMatches(c: (Expr, Expr), l: Row, r: Row) {
    EqualValues(Evaluate(c.0, l), Evaluate(c.1, r)) == Bool(true)
  }

  function JoinPair(conditions: seq<(Expr, Expr)>, l: Row, r: Row): seq<Row> {
    if Matches(conditions, l, r) then [l + r] else []
  }

  function JoinRow(conditions: seq<(Expr, Expr)>, l: Row, rs: seq<Row>): seq<Row> {
    if rs == [] then [] else JoinPair(conditions, l, rs[0]) + JoinRow(conditions, l, rs[1..])
  }

  function JoinRows(conditions: seq<(Expr, Expr)>, ls: seq<Row>, rs: seq<Row>): seq<Row> {
    if ls == [] then [] else JoinRow(conditions, ls[0], rs) + JoinRows(conditions, ls[1..], rs)
  }

  function Nulls(scope: set<Name>): Row {
    map n | n in scope :: Null
  }

  function WithMark(rows: seq<Row>, mark: Name): seq<Row> {
    if rows == [] then [] else [rows[0][mark := Bool(true)]] + WithMark(rows[1..], mark)
  }

  /** The rows of the build side as a product has them. */
  function Collected(accumulate: Accumulate, rows: seq<Row>, scope: set<Name>): seq<Row> {
    match accumulate
    case Regular => rows
    case Optional => if rows == [] then [Nulls(scope)] else rows
    case Marked(mark) => if rows == [] then [Nulls(scope)[mark := Bool(false)]] else WithMark(rows, mark)
  }

  const ZERO := Data("0")

  /** A probe row with its matches, or with count zero if there are none. */
  function CountRow(conditions: seq<(Expr, Expr)>, count: Name, l: Row, rs: seq<Row>): seq<Row> {
    var matches := JoinRow(conditions, l, rs);
    if matches == [] then [l[count := ZERO]] else matches
  }

  function CountRows(conditions: seq<(Expr, Expr)>, count: Name, ls: seq<Row>, rs: seq<Row>): seq<Row> {
    if ls == [] then [] else CountRow(conditions, count, ls[0], rs) + CountRows(conditions, count, ls[1..], rs)
  }

  ghost function Rows(db: Database, op: Op): seq<Row>
    requires PlanOk(db, op)
  {
    match op
    case Scan(node, tables, properties, TableScan, pushed) => ScanTables(db, node, properties, tables, pushed)
    case Scan(node, tables, properties, PrimaryKeyScan(key), _) =>
      ScanRows(node, properties, Lookup(db.tables[tables[0]], Evaluate(key, map[])))
    case Filter(p, c) => FilterRows(Rows(db, c), p)
    case CrossProduct(accumulate, l, r) => JoinRows([], Rows(db, l), Collected(accumulate, Rows(db, r), Scope(r)))
    case HashJoin(conditions, l, r) => JoinRows(conditions, Rows(db, l), Rows(db, r))
    case CountJoin(conditions, count, l, r) => CountRows(conditions, count, Rows(db, l), Rows(db, r))
    case OtherJoin(_, _, join, l, r) => join(multiset(Rows(db, l)), multiset(Rows(db, r)))
    case EmptyResult(_) => []
    case Other(_, _, pushed, _, run, inputs) =>
      run(seq(|inputs|, i requires 0 <= i < |inputs| => multiset(Rows(db, inputs[i]))), pushed)
  }

  /** How often a row is in the result. */
  ghost function Times(db: Database, op: Op, row: Row): nat
    requires PlanOk(db, op)
  {
    multiset(Rows(db, op))[row]
  }

  // ----- what the planner and the storage promise -----

  /** A primary key is there, not null and not repeated. */
  ghost predicate KeyOk(t: Table) {
    var ts := AllTuples(t);
    && (forall i :: 0 <= i < |ts| ==> !ValueIn(ts[i], t.primaryKey).Null?)
    && (forall i, j :: 0 <= i < j < |ts| ==> ValueIn(ts[i], t.primaryKey) != ValueIn(ts[j], t.primaryKey))
  }

  ghost predicate ScanOk(db: Database, node: Expr, tables: seq<nat>, properties: seq<Expr>) {
    && node.Property?
    && (forall i :: 0 <= i < |properties| ==>
          properties[i].Property? && properties[i].variable == node.variable && NameOf(properties[i]) != NameOf(node))
    && (forall i :: 0 <= i < |tables| ==> tables[i] in db.tables && KeyOk(db.tables[tables[i]]))
    && (|tables| == 1 && node.variable in db.keys ==>
          db.tables[tables[0]].primaryKey == db.keys[node.variable] && node.property != db.keys[node.variable])
    && (forall id, k, pushed, i {:trigger db.skips(id, k, pushed), db.tables[id].blocks[k][i]} ::
          id in tables && 0 <= k < |db.tables[id].blocks| && db.skips(id, k, pushed) &&
            0 <= i < |db.tables[id].blocks[k]| ==>
          !PushedTrue(pushed, ScanRow(node, properties, db.tables[id].blocks[k][i])))
  }

  predicate PushedTrue(pushed: Pushed, row: Row) {
    forall i :: 0 <= i < |pushed| ==> AllTrue(pushed[i], row)
  }

  /** Column predicates may only take away rows that fail one of them. */
  ghost predicate RunOk(run: (seq<multiset<Row>>, Pushed) -> seq<Row>, columns: set<Name>) {
    && (forall bags, pushed, row {:trigger multiset(run(bags, pushed))[row]} ::
          PushedTrue(pushed, row) ==> multiset(run(bags, pushed))[row] == multiset(run(bags, []))[row])
    && (forall bags, pushed, row :: row in run(bags, pushed) ==> row.Keys == columns)
  }

  ghost predicate PlanOk(db: Database, op: Op) {
    match op
    case Scan(node, tables, properties, scanType, _) =>
      && ScanOk(db, node, tables, properties)
      && (scanType.PrimaryKeyScan? ==> |tables| == 1 && IsConstant(scanType.key))
    case Filter(p, c) => PlanOk(db, c) && ExprOk(db.keys, Scope(c), p) && (p.Literal? ==> !p.value.Data?)
    case CrossProduct(accumulate, l, r) =>
      PlanOk(db, l) && PlanOk(db, r) && Scope(l) !! Scope(r) && Marks(accumulate) !! Scope(l) + Scope(r)
    case HashJoin(_, l, r) => PlanOk(db, l) && PlanOk(db, r)
    case CountJoin(_, count, l, r) =>
      PlanOk(db, l) && PlanOk(db, r) && count.Text? && count in Scope(r) && Scope(r) <= Scope(l) + {count}
    case OtherJoin(_, columns, join, l, r) =>
      PlanOk(db, l) && PlanOk(db, r) && (forall a, b, row :: row in join(a, b) ==> row.Keys == columns)
    case EmptyResult(_) => true
    case Other(_, _, _, columns, run, inputs) =>
      RunOk(run, columns) && forall i :: 0 <= i < |inputs| ==> PlanOk(db, inputs[i])
  }
}
