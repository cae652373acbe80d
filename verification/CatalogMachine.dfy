/** Transactions over one catalog set: beginning, reading, writing, and the record by record
    work of commit and rollback, which other transactions may interleave with. */
module CatalogMachine {
  import opened CatalogVersions

  datatype Phase = Running | Committing(done: nat) | RollingBack

  datatype Txn = Txn(startTS: nat, write: bool, phase: Phase)

  /** What the transaction manager keeps. */
  datatype Txns = Txns(lastID: nat, lastTS: nat, active: map<nat, Txn>)

  datatype State = State(entries: Entries, nextOID: nat, txns: Txns, undos: map<nat, seq<Undo>>)

  datatype Step =
    | Begin(write: bool)
    | CloseReader(id: nat)
    | NextOID
    | CreateEntry(id: nat, name: string, builtin: bool, content: string)
    | DropEntry(id: nat, name: string, oid: nat)
    | AlterEntry(id: nat, name: string, content: string)
    | RenameEntry(id: nat, name: string, newName: string)
    | CommitBegin(id: nat)
    | CommitRecord(id: nat)
    | CommitEnd(id: nat)
    | RollbackBegin(id: nat)
    | RollbackRecord(id: nat)
    | RollbackEnd(id: nat)

  datatype Reply = Done | Refused | Failed(error: Error)

  // ----- the concrete machine -----

  /** Commit and rollback hold the lock that beginning a transaction needs. */
  predicate Quiet(x: Txns) {
    forall id :: id in x.active ==> x.active[id].phase.Running?
  }

  predicate HasWriter(x: Txns) {
    exists id :: id in x.active && x.active[id].write
  }

  predicate CanWrite(s: State, id: nat) {
    && id in s.txns.active && s.txns.active[id].write && s.txns.active[id].phase.Running?
    && id in s.undos
  }

  /** How a transaction reads. Once its commit has begun, its own versions are those with its id
      and those that already carry the commit timestamp. */
  function ReaderOf(x: Txns, id: nat): Reader
    requires id in x.active
  {
    Reader(id, if x.active[id].phase.Committing? then x.lastTS else x.active[id].startTS)
  }

  predicate Resolves(entries: Entries, r: Undo) {
    r.name in entries && r.below + 1 < |entries[r.name]|
  }

  /** Gives the version above the recorded entry its commit timestamp. */
  function Restamp(entries: Entries, r: Undo, ts: nat): Entries {
    if !Resolves(entries, r) then entries
    else
      var c := entries[r.name];
      entries[r.name := c[r.below + 1 := c[r.below + 1].(timestamp := ts)]]
  }

  /** Removes the version above the recorded entry from its chain. */
  function Unlink(entries: Entries, r: Undo): Entries {
    if !Resolves(entries, r) then entries
    else entries[r.name := Without(entries[r.name], r.below + 1)]
  }

  function Written(s: State, id: nat, o: Outcome): (State, Reply)
    requires id in s.undos
  {
    if o.error.Some? then (s, Failed(o.error.value))
    else (s.(entries := o.entries, undos := s.undos[id := s.undos[id] + o.undo]), Done)
  }

  function Left(s: State, id: nat): State {
    s.(txns := s.txns.(active := s.txns.active - {id}), undos := s.undos - {id})
  }

  function InPhase(x: Txns, id: nat, phase: Phase): Txns
    requires id in x.active
  {
    x.(active := x.active[id := x.active[id].(phase := phase)])
  }

  function Apply(s: State, step: Step): (State, Reply) {
    var x := s.txns;
    match step
    case Begin(write) =>
      if !Quiet(x) || (write && HasWriter(x)) then (s, Refused)
      else
        var id := x.lastID + 1;
        (s.(txns := Txns(id, x.lastTS, x.active[id := Txn(x.lastTS, write, Running)]),
            undos := s.undos[id := []]), Done)
    case CloseReader(id) =>
      if !Quiet(x) || id !in x.active || x.active[id].write then (s, Refused)
      else (Left(s, id), Done)
    case NextOID => (s.(nextOID := s.nextOID + 1), Done)
    case CreateEntry(id, name, builtin, content) =>
      if !CanWrite(s, id) then (s, Refused)
      else
        var o := Create(ReaderOf(x, id), s.entries, name, Item(s.nextOID, builtin, content));
        Written(s.(nextOID := s.nextOID + 1), id, o)
    case DropEntry(id, name, oid) =>
      if !CanWrite(s, id) then (s, Refused)
      else Written(s, id, Drop(ReaderOf(x, id), s.entries, name, oid))
    case AlterEntry(id, name, content) =>
      if !CanWrite(s, id) then (s, Refused)
      else Written(s, id, Alter(ReaderOf(x, id), s.entries, name, content))
    case RenameEntry(id, name, newName) =>
      // the DDL operator refuses a new name that exists before it calls the catalog set
      if !CanWrite(s, id) || Contains(ReaderOf(x, id), s.entries, newName) then (s, Refused)
      else Written(s, id, Rename(ReaderOf(x, id), s.entries, name, newName))
    case CommitBegin(id) =>
      if !Quiet(x) || !CanWrite(s, id) || x.lastTS + 1 >= START_TRANSACTION_ID then (s, Refused)
      else (s.(txns := InPhase(x, id, Committing(0)).(lastTS := x.lastTS + 1)), Done)
    case CommitRecord(id) =>
      if id !in x.active || id !in s.undos || !x.active[id].phase.Committing?
         || x.active[id].phase.done >= |s.undos[id]| then (s, Refused)
      else
        var done := x.active[id].phase.done;
        (s.(entries := Restamp(s.entries, s.undos[id][done], x.lastTS),
            txns := InPhase(x, id, Committing(done + 1))), Done)
    case CommitEnd(id) =>
      if id !in x.active || id !in s.undos || x.active[id].phase != Committing(|s.undos[id]|) then (s, Refused)
      else (Left(s, id), Done)
    case RollbackBegin(id) =>
      if !Quiet(x) || !CanWrite(s, id) then (s, Refused)
      else (s.(txns := InPhase(x, id, RollingBack)), Done)
    case RollbackRecord(id) =>
      if id !in x.active || id !in s.undos || !x.active[id].phase.RollingBack? || s.undos[id] == [] then (s, Refused)
      else
        var last := |s.undos[id]| - 1;
        (s.(entries := Unlink(s.entries, s.undos[id][last]), undos := s.undos[id := s.undos[id][..last]]), Done)
    case RollbackEnd(id) =>
      if id !in x.active || id !in s.undos || !x.active[id].phase.RollingBack? || s.undos[id] != [] then (s, Refused)
      else (Left(s, id), Done)
  }

  // ----- the machine it refines: every transaction works on a copy of the catalog -----

  /** How far a transaction is: at work, or with so many records of its commit or rollback to go. */
  datatype Progress = Working | Publishing | Undoing

  datatype Status = Status(write: bool, progress: Progress, records: nat)

  /** The transactions that are open, and the number of the last commit. */
  datatype Ledger = Ledger(lastTS: nat, open: map<nat, Status>)

  datatype Copies = Copies(committed: View, views: map<nat, View>, nextOID: nat, lastID: nat, ledger: Ledger)

  predicate Idle(l: Ledger) {
    forall id :: id in l.open ==> l.open[id].progress.Working?
  }

  predicate AnyWriter(l: Ledger) {
    exists id :: id in l.open && l.open[id].write
  }

  predicate Writing(a: Copies, id: nat) {
    id in a.ledger.open && id in a.views && a.ledger.open[id].write && a.ledger.open[id].progress.Working?
  }

  predicate InProgress(l: Ledger, id: nat, progress: Progress) {
    id in l.open && l.open[id].progress == progress
  }

  /** Whether a step may be taken at all. A write is up to its transaction alone; beginning and ending
      transactions wait for each other. */
  predicate Admitted(a: Copies, step: Step) {
    var l := a.ledger;
    match step
    case Begin(write) => Idle(l) && !(write && AnyWriter(l))
    case CloseReader(id) => Idle(l) && id in l.open && !l.open[id].write
    case NextOID => true
    case CreateEntry(id, _, _, _) => Writing(a, id)
    case DropEntry(id, _, _) => Writing(a, id)
    case AlterEntry(id, _, _) => Writing(a, id)
    case RenameEntry(id, _, newName) => Writing(a, id) && newName !in a.views[id]
    case CommitBegin(id) => Idle(l) && Writing(a, id) && l.lastTS + 1 < START_TRANSACTION_ID
    case CommitRecord(id) => InProgress(l, id, Publishing) && l.open[id].records > 0
    case CommitEnd(id) => InProgress(l, id, Publishing) && l.open[id].records == 0
    case RollbackBegin(id) => Idle(l) && Writing(a, id)
    case RollbackRecord(id) => InProgress(l, id, Undoing) && l.open[id].records > 0
    case RollbackEnd(id) => InProgress(l, id, Undoing) && l.open[id].records == 0
  }

  /** The reply to a step, from the copies and the ledger alone. */
  function Due(a: Copies, step: Step): Reply {
    if !Admitted(a, step) then Refused
    else
      match step
      case CreateEntry(id, name, _, _) => if name in a.views[id] then Failed(AlreadyExists) else Done
      case DropEntry(id, name, _) => if name in a.views[id] then Done else Failed(DoesNotExist)
      case AlterEntry(id, name, _) => if name in a.views[id] then Done else Failed(DoesNotExist)
      case RenameEntry(id, name, _) => if name in a.views[id] then Done else Failed(DoesNotExist)
      case _ => Done
  }

  function WithStatus(l: Ledger, id: nat, progress: Progress, more: int): Ledger {
    if id !in l.open || l.open[id].records + more < 0 then l
    else l.(open := l.open[id := Status(l.open[id].write, progress, l.open[id].records + more)])
  }

  function Closed(l: Ledger, id: nat): Ledger {
    l.(open := l.open - {id})
  }

  /** A write is one record more, a rename two. */
  function LedgerAfter(l: Ledger, newID: nat, step: Step): Ledger {
    match step
    case Begin(write) => l.(open := l.open[newID := Status(write, Working, 0)])
    case CloseReader(id) => Closed(l, id)
    case NextOID => l
    case CreateEntry(id, _, _, _) => WithStatus(l, id, Working, 1)
    case DropEntry(id, _, _) => WithStatus(l, id, Working, 1)
    case AlterEntry(id, _, _) => WithStatus(l, id, Working, 1)
    case RenameEntry(id, _, _) => WithStatus(l, id, Working, 2)
    case CommitBegin(id) => WithStatus(l, id, Publishing, 0).(lastTS := l.lastTS + 1)
    case CommitRecord(id) => WithStatus(l, id, Publishing, -1)
    case CommitEnd(id) => Closed(l, id)
    case RollbackBegin(id) => WithStatus(l, id, Undoing, 0)
    case RollbackRecord(id) => WithStatus(l, id, Undoing, -1)
    case RollbackEnd(id) => Closed(l, id)
  }

  /** A step of the copies by themselves. */
  function ApplyCopies(a: Copies, step: Step): Copies {
    var reply := Due(a, step);
    var a' := Updated(a, step, reply);
    if reply.Done? then a'.(ledger := LedgerAfter(a.ledger, a.lastID + 1, step)) else a'
  }

  /** What a step with that reply does to the copies. */
  function Updated(a: Copies, step: Step, reply: Reply): Copies {
    if reply.Refused? then a
    else if reply.Failed? then if step.CreateEntry? then a.(nextOID := a.nextOID + 1) else a
    else
      match step
      case Begin(_) => a.(lastID := a.lastID + 1, views := a.views[a.lastID + 1 := a.committed])
      case NextOID => a.(nextOID := a.nextOID + 1)
      case CreateEntry(id, name, builtin, content) =>
        WithView(a, id, CopyOf(a, id)[name := Item(a.nextOID, builtin, content)]).(nextOID := a.nextOID + 1)
      case DropEntry(id, name, _) => WithView(a, id, CopyOf(a, id) - {name})
      case AlterEntry(id, name, content) =>
        if name !in CopyOf(a, id) then a
        else WithView(a, id, CopyOf(a, id)[name := CopyOf(a, id)[name].(content := content)])
      case RenameEntry(id, name, newName) =>
        if name !in CopyOf(a, id) then a
        else WithView(a, id, (CopyOf(a, id) - {name})[newName := CopyOf(a, id)[name]])
      case CommitEnd(id) => a.(committed := CopyOf(a, id), views := a.views - {id})
      case CloseReader(id) => a.(views := a.views - {id})
      case RollbackEnd(id) => a.(views := a.views - {id})
      case _ => a
  }

  function CopyOf(a: Copies, id: nat): View {
    if id in a.views then a.views[id] else map[]
  }

  function WithView(a: Copies, id: nat, view: View): Copies {
    a.(views := a.views[id := view])
  }

  /** When a write that is not refused fails, and with which error, in terms of the copy. */
  ghost predicate ReplyFits(a: Copies, step: Step, reply: Reply) {
    reply.Refused? ||
    match step
    case CreateEntry(id, name, _, _) =>
      id in a.views && reply == if name in a.views[id] then Failed(AlreadyExists) else Done
    case DropEntry(id, name, _) =>
      id in a.views && reply == if name in a.views[id] then Done else Failed(DoesNotExist)
    case AlterEntry(id, name, _) =>
      id in a.views && reply == if name in a.views[id] then Done else Failed(DoesNotExist)
    case RenameEntry(id, name, newName) =>
      id in a.views && newName !in a.views[id] &&
      reply == if name in a.views[id] then Done else Failed(DoesNotExist)
    case Begin(_) => reply.Done?
    case NextOID => reply.Done?
    case _ => reply.Done? && step.id in a.views
  }

  // ----- invariant -----

  ghost predicate IsWriter(x: Txns, id: nat) {
    id in x.active && x.active[id].write
  }

  ghost predicate StampOk(x: Txns, c: Chain, i: int)
    requires 0 <= i < |c|
  {
    c[i].timestamp <= x.lastTS || IsWriter(x, c[i].timestamp)
  }

  /** A chain starts with a version everybody sees; every other version is committed or belongs
      to the active writer. */
  ghost predicate ChainOk(x: Txns, c: Chain) {
    && c != [] && c[0].timestamp == 0
    && forall i {:trigger StampOk(x, c, i)} :: 0 <= i < |c| ==> StampOk(x, c, i)
  }

  ghost predicate ChainsOk(x: Txns, entries: Entries) {
    forall n {:trigger ChainOk(x, entries[n])} :: n in entries ==> ChainOk(x, entries[n])
  }

  ghost predicate NotAbove(c: Chain, i: int, j: int)
    requires 0 <= i < |c| && 0 <= j < |c|
  {
    c[i].timestamp <= c[j].timestamp
  }

  /** Timestamps do not fall towards the newer end of a chain; as transaction ids are above all
      commit timestamps, the active writer's versions are a block on top. */
  ghost predicate Rising(c: Chain) {
    forall i, j {:trigger NotAbove(c, i, j)} :: 0 <= i < j < |c| ==> NotAbove(c, i, j)
  }

  ghost predicate AllRising(entries: Entries) {
    forall n {:trigger Rising(entries[n])} :: n in entries ==> Rising(entries[n])
  }

  /** The records a writer still has to process: all of them, or those commit has not reached. */
  function Pending(txn: Txn, undo: seq<Undo>): seq<Undo> {
    if txn.phase.Committing? && txn.phase.done <= |undo| then undo[txn.phase.done..] else undo
  }

  ghost predicate Before(r: Undo, q: Undo) {
    r.name == q.name ==> r.below < q.below
  }

  ghost predicate Ordered(undo: seq<Undo>) {
    forall j, k {:trigger Before(undo[j], undo[k])} :: 0 <= j < k < |undo| ==> Before(undo[j], undo[k])
  }

  ghost predicate Owns(entries: Entries, id: nat, name: string, i: int) {
    name in entries && 0 <= i < |entries[name]| && entries[name][i].timestamp == id
  }

  /** Pending records and versions stamped with the transaction id correspond one to one. */
  ghost predicate UndoOk(entries: Entries, id: nat, pending: seq<Undo>) {
    && Ordered(pending)
    && (forall r {:trigger Owns(entries, id, r.name, r.below + 1)} ::
          r in pending ==> Owns(entries, id, r.name, r.below + 1))
    && (forall n, i {:trigger Owns(entries, id, n, i)} ::
          Owns(entries, id, n, i) ==> i > 0 && Undo(n, i - 1) in pending)
  }

  ghost predicate WriterUndoOk(s: State, id: nat)
    requires id in s.txns.active
  {
    && id in s.undos
    && (s.txns.active[id].phase.Committing? ==> s.txns.active[id].phase.done <= |s.undos[id]|)
    && UndoOk(s.entries, id, Pending(s.txns.active[id], s.undos[id]))
  }

  ghost predicate UndosOk(s: State) {
    forall id {:trigger WriterUndoOk(s, id)} :: IsWriter(s.txns, id) ==> WriterUndoOk(s, id)
  }

  ghost predicate TxnOk(x: Txns, id: nat)
    requires id in x.active
  {
    var txn := x.active[id];
    && START_TRANSACTION_ID < id <= x.lastID
    && (if txn.phase.Committing? then txn.startTS + 1 == x.lastTS
        else if txn.write then txn.startTS == x.lastTS
        else txn.startTS <= x.lastTS)
    && (!txn.phase.Running? ==> txn.write)
  }

  ghost predicate SingleWriter(x: Txns) {
    forall i, j :: IsWriter(x, i) && IsWriter(x, j) ==> i == j
  }

  ghost predicate IsCommitting(x: Txns, id: nat) {
    id in x.active && x.active[id].phase.Committing?
  }

  /** While one transaction commits, all others started before it. */
  ghost predicate BehindCommit(x: Txns) {
    forall i, j {:trigger IsCommitting(x, i), x.active[j]} ::
      IsCommitting(x, i) && j in x.active && i != j ==> x.active[j].startTS < x.lastTS
  }

  ghost predicate TxnsOk(x: Txns) {
    && x.lastTS < START_TRANSACTION_ID <= x.lastID
    && (forall id {:trigger TxnOk(x, id)} :: id in x.active ==> TxnOk(x, id))
    && SingleWriter(x)
    && BehindCommit(x)
  }

  ghost predicate Inv(s: State) {
    && s.undos.Keys == s.txns.active.Keys
    && TxnsOk(s.txns) && ChainsOk(s.txns, s.entries) && AllRising(s.entries) && UndosOk(s)
  }

  /** A reader that starts now. Its id is never given to a transaction. */
  function Latest(x: Txns): Reader {
    Reader(START_TRANSACTION_ID, x.lastTS)
  }

  ghost predicate NoCommit(x: Txns) {
    forall id :: !IsCommitting(x, id)
  }

  ghost predicate SeesCopy(x: Txns, entries: Entries, id: nat, view: View) {
    id in x.active && (x.active[id].phase.RollingBack? || Visible(ReaderOf(x, id), entries) == view)
  }

  ghost predicate LatestIs(x: Txns, entries: Entries, view: View) {
    NoCommit(x) ==> Visible(Latest(x), entries) == view
  }

  /** Every transaction reads its copy, and a transaction that began now would read the committed
      one. A transaction that is rolling back reads nothing any more. */
  ghost predicate SameViews(s: State, a: Copies) {
    && a.nextOID == s.nextOID && a.lastID == s.txns.lastID
    && a.views.Keys == s.txns.active.Keys
    && (forall id {:trigger SeesCopy(s.txns, s.entries, id, a.views[id])} ::
          id in a.views ==> SeesCopy(s.txns, s.entries, id, a.views[id]))
    && LatestIs(s.txns, s.entries, a.committed)
  }

  function ProgressOf(phase: Phase): Progress {
    match phase
    case Running => Working
    case Committing(_) => Publishing
    case RollingBack => Undoing
  }

  function StatusOf(s: State, id: nat): Status
    requires id in s.txns.active
  {
    var txn, undo := s.txns.active[id], if id in s.undos then s.undos[id] else [];
    Status(txn.write, ProgressOf(txn.phase), |Pending(txn, undo)|)
  }

  function LedgerOf(s: State): Ledger {
    Ledger(s.txns.lastTS, map id | id in s.txns.active :: StatusOf(s, id))
  }

  /** The copies are what the transactions read, and the ledger is how far they are. */
  ghost predicate Refines(s: State, a: Copies) {
    SameViews(s, a) && a.ledger == LedgerOf(s)
  }
}
