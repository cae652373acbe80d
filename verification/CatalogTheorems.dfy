/** What holds of a catalog set in every run: snapshot isolation, object ids, reloading. */
module CatalogTheorems {
  import opened CatalogVersions
  import opened CatalogMachine
  import opened CatalogRefinement

  // ----- runs -----

  function Run(s: State, steps: seq<Step>): State
    decreases |steps|
  {
    if steps == [] then s else Run(Apply(s, steps[0]).0, steps[1..])
  }

  /** The same run of the copies, by themselves. */
  function RunCopies(a: Copies, steps: seq<Step>): Copies
    decreases |steps|
  {
    if steps == [] then a else RunCopies(ApplyCopies(a, steps[0]), steps[1..])
  }

  /** A catalog set as it is when the database opens: every version is older than any
      transaction. */
  ghost predicate Initial(s: State) {
    && s.txns.active == map[] && s.undos == map[]
    && s.txns.lastTS < START_TRANSACTION_ID <= s.txns.lastID
    && (forall n :: n in s.entries ==> s.entries[n] != [])
    && (forall n, i :: n in s.entries && 0 <= i < |s.entries[n]| ==> s.entries[n][i].timestamp == 0)
    && OidsOk(Visible(Latest(s.txns), s.entries), s.nextOID)
  }

  function Start(s: State): Copies {
    Copies(Visible(Latest(s.txns), s.entries), map[], s.nextOID, s.txns.lastID, Ledger(s.txns.lastTS, map[]))
  }

  /** Object ids are pairwise distinct and below the next one to be given. */
  ghost predicate OidsOk(view: View, nextOID: nat) {
    && (forall n :: n in view ==> view[n].oid < nextOID)
    && (forall n, m :: n in view && m in view && view[n].oid == view[m].oid ==> n == m)
  }

  ghost predicate CopiesOk(a: Copies) {
    OidsOk(a.committed, a.nextOID) && forall id :: id in a.views ==> OidsOk(a.views[id], a.nextOID)
  }

  lemma {:induction false} InitialRefines(s: State)
    requires Initial(s)
    ensures Inv(s) && Refines(s, Start(s)) && CopiesOk(Start(s))
  {
    var x := s.txns;
    forall n | n in s.entries ensures ChainOk(x, s.entries[n]) && Rising(s.entries[n]) {
      var c := s.entries[n];
      forall i | 0 <= i < |c| ensures StampOk(x, c, i) { assert s.entries[n][i].timestamp == 0; }
      forall i, j | 0 <= i < j < |c| ensures NotAbove(c, i, j) {
        assert s.entries[n][i].timestamp == 0 && s.entries[n][j].timestamp == 0;
      }
      assert s.entries[n][0].timestamp == 0;
    }
  }

  /** A changed view, and perhaps one object id more. */
  lemma {:induction false} ChangedViewOk(a: Copies, id: nat, view: View, nextOID: nat)
    requires CopiesOk(a) && OidsOk(view, nextOID) && a.nextOID <= nextOID
    ensures CopiesOk(WithView(a, id, view).(nextOID := nextOID))
  {
  }

  lemma {:induction false} RenamedOk(view: View, nextOID: nat, name: string, newName: string)
    requires OidsOk(view, nextOID) && name in view && newName !in view
    ensures OidsOk((view - {name})[newName := view[name]], nextOID)
  {
  }

  lemma {:induction false} CopiesStayOk(a: Copies, step: Step)
    requires CopiesOk(a)
    ensures CopiesOk(ApplyCopies(a, step))
  {
    if Due(a, step).Done? {
      match step
      case CreateEntry(id, name, builtin, content) =>
        ChangedViewOk(a, id, a.views[id][name := Item(a.nextOID, builtin, content)], a.nextOID + 1);
      case DropEntry(id, name, _) =>
        ChangedViewOk(a, id, a.views[id] - {name}, a.nextOID);
      case AlterEntry(id, name, content) =>
        ChangedViewOk(a, id, a.views[id][name := a.views[id][name].(content := content)], a.nextOID);
      case RenameEntry(id, name, newName) =>
        RenamedOk(a.views[id], a.nextOID, name, newName);
        ChangedViewOk(a, id, (a.views[id] - {name})[newName := a.views[id][name]], a.nextOID);
      case _ =>
    }
  }

  /** In every run, whatever the interleaving, each transaction reads its own copy of the
      catalog: the committed one when it began, changed by its own writes only; and a commit
      makes the writer's copy the committed one. */
  lemma {:induction false} RunRefines(s: State, a: Copies, steps: seq<Step>)
    requires Inv(s) && Refines(s, a) && CopiesOk(a)
    ensures Inv(Run(s, steps))
    ensures Refines(Run(s, steps), RunCopies(a, steps))
    ensures CopiesOk(RunCopies(a, steps))
    decreases |steps|
  {
    if steps != [] {
      StepRefines(s, a, steps[0]);
      CopiesStayOk(a, steps[0]);
      RunRefines(Apply(s, steps[0]).0, ApplyCopies(a, steps[0]), steps[1..]);
    }
  }

  /** The same from the opening of the database, with the reply to every next step. */
  lemma {:induction false} CatalogRefinesCopies(s: State, steps: seq<Step>, next: Step)
    requires Initial(s)
    ensures var s', a' := Run(s, steps), RunCopies(Start(s), steps);
            Inv(s') && Refines(s', a') && CopiesOk(a') && Apply(s', next).1 == Due(a', next)
  {
    InitialRefines(s);
    RunRefines(s, Start(s), steps);
    StepRefines(Run(s, steps), RunCopies(Start(s), steps), next);
  }

  /** A writer at work, as the transaction manager has it. */
  ghost predicate AtWork(s: State, id: nat) {
    id in s.txns.active && s.txns.active[id].write && s.txns.active[id].phase.Running?
  }

  lemma {:induction false} WriterAtWork(s: State, steps: seq<Step>, id: nat)
    requires Initial(s) && AtWork(Run(s, steps), id)
    ensures var s', a' := Run(s, steps), RunCopies(Start(s), steps);
            && Inv(s') && Refines(s', a') && CanWrite(s', id) && Writing(a', id)
            && a'.views[id] == Visible(ReaderOf(s'.txns, id), s'.entries) && a'.nextOID == s'.nextOID
  {
    InitialRefines(s);
    RunRefines(s, Start(s), steps);
    var s', a' := Run(s, steps), RunCopies(Start(s), steps);
    LedgerTells(s', a');
    WriterCopy(s', a', id);
  }

  /** In every run a writer at work may alter exactly what it sees, and then sees the new content. */
  lemma {:induction false} AlterTakesEffect(s: State, steps: seq<Step>, id: nat, name: string, content: string)
    requires Initial(s) && AtWork(Run(s, steps), id)
    ensures var s' := Run(s, steps);
            var view, after := Visible(ReaderOf(s'.txns, id), s'.entries), Apply(s', AlterEntry(id, name, content));
            && after.1 == (if name in view then Done else Failed(DoesNotExist))
            && ViewIs(after.0, id, if name in view then view[name := view[name].(content := content)] else view)
  {
    WriterAtWork(s, steps, id);
    OneWrite(Run(s, steps), RunCopies(Start(s), steps), AlterEntry(id, name, content));
  }

  /** It may drop exactly what it sees, and then does not see it any more. */
  lemma {:induction false} DropTakesEffect(s: State, steps: seq<Step>, id: nat, name: string, oid: nat)
    requires Initial(s) && AtWork(Run(s, steps), id)
    ensures var s' := Run(s, steps);
            var view, after := Visible(ReaderOf(s'.txns, id), s'.entries), Apply(s', DropEntry(id, name, oid));
            && after.1 == (if name in view then Done else Failed(DoesNotExist)) && ViewIs(after.0, id, view - {name})
  {
    WriterAtWork(s, steps, id);
    OneWrite(Run(s, steps), RunCopies(Start(s), steps), DropEntry(id, name, oid));
    var view := Visible(ReaderOf(Run(s, steps).txns, id), Run(s, steps).entries);
    assert name !in view ==> view - {name} == view;
  }

  /** It may create exactly what it does not see, and then sees it with the next object id. */
  lemma {:induction false} CreateTakesEffect(s: State, steps: seq<Step>, id: nat, name: string, builtin: bool,
                                             content: string)
    requires Initial(s) && AtWork(Run(s, steps), id)
    ensures var s' := Run(s, steps);
            var view := Visible(ReaderOf(s'.txns, id), s'.entries);
            var after := Apply(s', CreateEntry(id, name, builtin, content));
            && after.1 == (if name in view then Failed(AlreadyExists) else Done)
            && ViewIs(after.0, id, if name in view then view else view[name := Item(s'.nextOID, builtin, content)])
  {
    WriterAtWork(s, steps, id);
    OneWrite(Run(s, steps), RunCopies(Start(s), steps), CreateEntry(id, name, builtin, content));
  }

  /** It may rename exactly what it sees to what it does not see; the entry keeps its object id. */
  lemma {:induction false} RenameTakesEffect(s: State, steps: seq<Step>, id: nat, name: string, newName: string)
    requires Initial(s) && AtWork(Run(s, steps), id)
    ensures var s' := Run(s, steps);
            var view, after := Visible(ReaderOf(s'.txns, id), s'.entries), Apply(s', RenameEntry(id, name, newName));
            && after.1 == (if newName in view then Refused else if name in view then Done else Failed(DoesNotExist))
            && ViewIs(after.0, id, if newName in view || name !in view then view
                                   else (view - {name})[newName := view[name]])
  {
    WriterAtWork(s, steps, id);
    OneWrite(Run(s, steps), RunCopies(Start(s), steps), RenameEntry(id, name, newName));
  }

  /** In every run a transaction may begin exactly if no commit or rollback is under way and, if it wants
      to write, there is no writer. */
  lemma {:induction false} BeginRefusedIff(s: State, steps: seq<Step>, write: bool)
    requires Initial(s)
    ensures var x := Run(s, steps).txns;
            Apply(Run(s, steps), Begin(write)).1 ==
            if (exists id :: id in x.active && !x.active[id].phase.Running?) ||
               (write && exists id :: id in x.active && x.active[id].write) then Refused else Done
  {
    InitialRefines(s);
    RunRefines(s, Start(s), steps);
    var s', a' := Run(s, steps), RunCopies(Start(s), steps);
    StepRefines(s', a', Begin(write));
    LedgerTells(s', a');
  }

  ghost predicate ViewIs(s: State, id: nat, view: View) {
    id in s.txns.active && Visible(ReaderOf(s.txns, id), s.entries) == view
  }

  lemma {:induction false} OneWrite(s: State, a: Copies, step: Step)
    requires Inv(s) && Refines(s, a) && IsWrite(step) && CanWrite(s, step.id)
    ensures Apply(s, step).1 == Due(a, step)
    ensures step.id in ApplyCopies(a, step).views
    ensures ViewIs(Apply(s, step).0, step.id, ApplyCopies(a, step).views[step.id])
  {
    StepRefines(s, a, step);
    var s', a' := Apply(s, step).0, ApplyCopies(a, step);
    assert s'.txns == s.txns;
    assert SeesCopy(s'.txns, s'.entries, step.id, a'.views[step.id]);
  }

  /** In every run every walk of an active transaction ends at a version, the newest it sees: the result
      may be used without a check. */
  lemma {:induction false} EveryWalkFinds(s: State, steps: seq<Step>, t: nat, name: string)
    requires Initial(s)
    requires var s' := Run(s, steps); t in s'.txns.active && name in s'.entries
    ensures var s' := Run(s, steps);
            var reader, c := ReaderOf(s'.txns, t), s'.entries[name];
            && Traverse(reader, c).Some?
            && exists i :: 0 <= i < |c| && Traverse(reader, c).value == c[i] && Sees(reader, c[i])
                           && forall j :: i < j < |c| ==> !Sees(reader, c[j])
  {
    InitialRefines(s);
    RunRefines(s, Start(s), steps);
    var s' := Run(s, steps);
    assert ChainOk(s'.txns, s'.entries[name]);
    TraverseFindsNewest(ReaderOf(s'.txns, t), s'.entries[name]);
  }

  // ----- snapshots -----

  predicate ActsFor(step: Step, id: nat) {
    match step
    case Begin(_) => false
    case NextOID => false
    case _ => step.id == id
  }

  /** The copies a state stands for. */
  function CopiesOf(s: State): Copies {
    Copies(Visible(Latest(s.txns), s.entries), map id | id in s.txns.active :: Visible(ReaderOf(s.txns, id), s.entries),
           s.nextOID, s.txns.lastID, LedgerOf(s))
  }

  lemma {:induction false} CopiesOfRefined(s: State)
    requires Inv(s)
    ensures Refines(s, CopiesOf(s))
  {
    var a := CopiesOf(s);
    forall id | id in a.views ensures SeesCopy(s.txns, s.entries, id, a.views[id]) {}
  }

  lemma {:induction false} OthersKeepCopy(s: State, a: Copies, steps: seq<Step>, t: nat)
    requires Inv(s) && Refines(s, a)
    requires t in s.txns.active && (forall k :: 0 <= k < |steps| ==> !ActsFor(steps[k], t))
    ensures Inv(Run(s, steps)) && Refines(Run(s, steps), RunCopies(a, steps))
    ensures t in Run(s, steps).txns.active && Run(s, steps).txns.active[t] == s.txns.active[t]
    ensures t in RunCopies(a, steps).views && RunCopies(a, steps).views[t] == a.views[t]
    decreases |steps|
  {
    if steps != [] {
      StepRefines(s, a, steps[0]);
      OneStepKeeps(s, a, steps[0], t);
      OthersKeepCopy(Apply(s, steps[0]).0, ApplyCopies(a, steps[0]), steps[1..], t);
    }
  }

  lemma {:induction false} OneStepKeeps(s: State, a: Copies, step: Step, t: nat)
    requires Inv(s) && Refines(s, a) && t in s.txns.active && !ActsFor(step, t)
    ensures var s', a' := Apply(s, step).0, ApplyCopies(a, step);
            && t in s'.txns.active && s'.txns.active[t] == s.txns.active[t]
            && t in a'.views && a'.views[t] == a.views[t]
  {
    assert TxnOk(s.txns, t);
    TxnKept(s, step, t);
    CopyKept(a, step, t);
  }

  lemma {:induction false} TxnKept(s: State, step: Step, t: nat)
    requires t in s.txns.active && t <= s.txns.lastID && !ActsFor(step, t)
    ensures t in Apply(s, step).0.txns.active && Apply(s, step).0.txns.active[t] == s.txns.active[t]
  {
  }

  lemma {:induction false} CopyKept(a: Copies, step: Step, t: nat)
    requires t in a.views && t <= a.lastID && !ActsFor(step, t)
    ensures t in ApplyCopies(a, step).views && ApplyCopies(a, step).views[t] == a.views[t]
  {
  }

  /** Snapshot stability. However many steps other transactions take, including their commits
      and rollbacks and every state in the middle of those, a running transaction that does
      nothing in between sees the same entries, and so do `Contains` and the walk for each name. */
  lemma {:induction false} SnapshotStable(s: State, steps: seq<Step>, t: nat)
    requires Inv(s) && t in s.txns.active && s.txns.active[t].phase.Running?
    requires forall k :: 0 <= k < |steps| ==> !ActsFor(steps[k], t)
    ensures var s' := Run(s, steps);
            && t in s'.txns.active && ReaderOf(s'.txns, t) == ReaderOf(s.txns, t)
            && Visible(ReaderOf(s'.txns, t), s'.entries) == Visible(ReaderOf(s.txns, t), s.entries)
  {
    CopiesOfRefined(s);
    OthersKeepCopy(s, CopiesOf(s), steps, t);
    assert SeesCopy(s.txns, s.entries, t, CopiesOf(s).views[t]);
    var s', a' := Run(s, steps), RunCopies(CopiesOf(s), steps);
    assert SeesCopy(s'.txns, s'.entries, t, a'.views[t]);
  }

  /** Committing takes effect at once for every transaction that begins afterwards: it sees what
      the writer saw when it asked for the commit. */
  lemma {:induction false} CommitPublishes(s: State, id: nat, n: nat)
    requires Inv(s) && CanWrite(s, id) && Quiet(s.txns) && s.txns.lastTS + 1 < START_TRANSACTION_ID
    requires n == |s.undos[id]|
    ensures var s' := Run(s, [CommitBegin(id)] + Repeat(CommitRecord(id), n) + [CommitEnd(id)]);
            && Inv(s') && id !in s'.txns.active && Quiet(s'.txns)
            && Visible(Latest(s'.txns), s'.entries) == Visible(ReaderOf(s.txns, id), s.entries)
  {
    var a := CopiesOf(s);
    CopiesOfRefined(s);
    var tail := Repeat(CommitRecord(id), n) + [CommitEnd(id)];
    assert [CommitBegin(id)] + Repeat(CommitRecord(id), n) + [CommitEnd(id)] == [CommitBegin(id)] + tail;
    var s1 := Apply(s, CommitBegin(id)).0;
    StepKeepsViews(s, a, CommitBegin(id));
    assert ([CommitBegin(id)] + tail)[1..] == tail;
    CommitRecords(s1, a, id, n);
  }

  function Repeat(step: Step, n: nat): seq<Step> {
    if n == 0 then [] else [step] + Repeat(step, n - 1)
  }

  lemma {:induction false} CommitRecords(s: State, a: Copies, id: nat, n: nat)
    requires Inv(s) && SameViews(s, a) && id in s.undos && n <= |s.undos[id]|
    requires id in s.txns.active && s.txns.active[id].phase == Committing(|s.undos[id]| - n)
    requires forall other :: other in s.txns.active && other != id ==> s.txns.active[other].phase.Running?
    ensures var s' := Run(s, Repeat(CommitRecord(id), n) + [CommitEnd(id)]);
            && Inv(s') && id !in s'.txns.active && Quiet(s'.txns)
            && id in a.views && Visible(Latest(s'.txns), s'.entries) == a.views[id]
    decreases n
  {
    if n == 0 {
      CommitLast(s, a, id);
    } else {
      var steps := Repeat(CommitRecord(id), n) + [CommitEnd(id)];
      var s' := Apply(s, steps[0]).0;
      CommitOne(s, a, id, |s.undos[id]| - n);
      assert steps[1..] == Repeat(CommitRecord(id), n - 1) + [CommitEnd(id)];
      CommitRecords(s', a, id, n - 1);
    }
  }

  lemma {:induction false} CommitOne(s: State, a: Copies, id: nat, done: nat)
    requires Inv(s) && SameViews(s, a) && id in s.undos && done < |s.undos[id]|
    requires id in s.txns.active && s.txns.active[id].phase == Committing(done)
    ensures var s' := Apply(s, CommitRecord(id)).0;
            && Inv(s') && SameViews(s', a) && s'.undos == s.undos
            && s'.txns.active == s.txns.active[id := s.txns.active[id].(phase := Committing(done + 1))]
  {
    StepKeepsViews(s, a, CommitRecord(id));
  }

  lemma {:induction false} CommitLast(s: State, a: Copies, id: nat)
    requires Inv(s) && SameViews(s, a) && id in s.undos
    requires id in s.txns.active && s.txns.active[id].phase == Committing(|s.undos[id]|)
    requires forall other :: other in s.txns.active && other != id ==> s.txns.active[other].phase.Running?
    ensures var s' := Run(s, Repeat(CommitRecord(id), 0) + [CommitEnd(id)]);
            && Inv(s') && id !in s'.txns.active && Quiet(s'.txns)
            && id in a.views && Visible(Latest(s'.txns), s'.entries) == a.views[id]
  {
    var (s', reply) := Apply(s, CommitEnd(id));
    StepKeepsViews(s, a, CommitEnd(id));
    assert Repeat(CommitRecord(id), 0) + [CommitEnd(id)] == [CommitEnd(id)] && [CommitEnd(id)][1..] == [];
    assert Run(s, [CommitEnd(id)]) == Run(s', []);
    forall other ensures !IsCommitting(s'.txns, other) {}
  }

  // ----- object ids -----

  /** In every run the entries any running transaction sees have pairwise distinct ids. */
  lemma {:induction false} OidsDistinct(s: State, steps: seq<Step>, t: nat)
    requires Initial(s) && t in Run(s, steps).txns.active && !Run(s, steps).txns.active[t].phase.RollingBack?
    ensures var s' := Run(s, steps); OidsOk(Visible(ReaderOf(s'.txns, t), s'.entries), s'.nextOID)
  {
    InitialRefines(s);
    RunRefines(s, Start(s), steps);
    var s', a' := Run(s, steps), RunCopies(Start(s), steps);
    assert SeesCopy(s'.txns, s'.entries, t, a'.views[t]);
  }

  function TopOid(c: Chain): nat {
    if c == [] then 0 else c[|c| - 1].item.oid
  }

  /** What the search by object id may return: a name whose newest version has the id and of
      which the reader sees some live version; nothing only if there is no such name. */
  ghost predicate OidAnswer(t: Reader, entries: Entries, oid: nat, answer: Option<string>) {
    match answer
    case Some(n) => Contains(t, entries, n) && TopOid(entries[n]) == oid
    case None => forall n :: Contains(t, entries, n) ==> TopOid(entries[n]) != oid
  }

  /** What the search by object id is for. */
  ghost predicate OidCorrect(view: View, oid: nat, answer: Option<string>) {
    match answer
    case Some(n) => n in view && view[n].oid == oid
    case None => forall n :: n in view ==> view[n].oid != oid
  }

  /** No name the reader sees has been dropped and created again above what it sees. */
  ghost predicate TopsKeepOid(t: Reader, entries: Entries) {
    forall n :: Contains(t, entries, n) ==> TopOid(entries[n]) == Traverse(t, entries[n]).value.item.oid
  }

  /** The search by object id is right for every id, whatever the order in which it goes through
      the names, exactly when the newest version of every name the reader sees has the id the
      reader sees. */
  lemma {:induction false} OidSearchCorrectIff(t: Reader, entries: Entries)
    ensures (forall oid, answer :: OidAnswer(t, entries, oid, answer) ==> OidCorrect(Visible(t, entries), oid, answer))
            <==> TopsKeepOid(t, entries)
  {
    if !TopsKeepOid(t, entries) {
      var n :| Contains(t, entries, n) && TopOid(entries[n]) != Traverse(t, entries[n]).value.item.oid;
      var oid := TopOid(entries[n]);
      assert OidAnswer(t, entries, oid, Some(n)) && !OidCorrect(Visible(t, entries), oid, Some(n));
    }
    if TopsKeepOid(t, entries) {
      forall oid, answer | OidAnswer(t, entries, oid, answer) ensures OidCorrect(Visible(t, entries), oid, answer) {
        if answer.None? {
          forall n | n in Visible(t, entries) ensures Visible(t, entries)[n].oid != oid {
            assert Contains(t, entries, n);
          }
        }
      }
    }
  }

  /** A running writer's searches by object id are right in every reachable state, and the
      answer is the only name with that id. */
  lemma {:induction false} WriterOidSearch(s: State, steps: seq<Step>, id: nat, oid: nat, answer: Option<string>)
    requires Initial(s) && CanWrite(Run(s, steps), id)
    requires var s' := Run(s, steps); OidAnswer(ReaderOf(s'.txns, id), s'.entries, oid, answer)
    ensures var s' := Run(s, steps);
            var view := Visible(ReaderOf(s'.txns, id), s'.entries);
            && OidCorrect(view, oid, answer)
            && forall n :: n in view && view[n].oid == oid ==> answer == Some(n)
  {
    InitialRefines(s);
    RunRefines(s, Start(s), steps);
    var s' := Run(s, steps);
    var t := ReaderOf(s'.txns, id);
    forall n | Contains(t, s'.entries, n) ensures TopOid(s'.entries[n]) == Traverse(t, s'.entries[n]).value.item.oid {
      assert ChainOk(s'.txns, s'.entries[n]);
      WriterSeesTop(s'.txns, id, s'.entries[n]);
    }
    OidSearchCorrectIff(t, s'.entries);
    OidsDistinct(s, steps, id);
  }

  /** An older snapshot can be given the wrong entry: after another transaction has dropped `T`
      and created it again, the reader that still sees id 0 finds its old `T` under id 1. */
  lemma {:induction false} OldSnapshotFindsWrongOid()
    ensures var r, w := START_TRANSACTION_ID + 1, START_TRANSACTION_ID + 2;
            var s := Run(Example(), [Begin(false), Begin(true), DropEntry(w, "T", 0), CreateEntry(w, "T", false, "")]);
            && Initial(Example()) && r in s.txns.active
            && var t := ReaderOf(s.txns, r);
            && OidAnswer(t, s.entries, 1, Some("T")) && !OidCorrect(Visible(t, s.entries), 1, Some("T"))
  {
    var r, w := START_TRANSACTION_ID + 1, START_TRANSACTION_ID + 2;
    var s0, s2 := Example(), ExampleWithBoth();
    ExampleInitial();
    ExampleBegins();
    ExampleReplaces();
    var steps := [DropEntry(w, "T", 0), CreateEntry(w, "T", false, "")];
    assert Run(s0, [Begin(false), Begin(true)] + steps) == Run(s2, steps);
    assert [Begin(false), Begin(true)] + steps ==
           [Begin(false), Begin(true), DropEntry(w, "T", 0), CreateEntry(w, "T", false, "")];
    var c := ExampleChain();
    assert c[..2][..1] == c[..1];
    assert Traverse(Reader(r, 1), c[..1]) == Some(c[0]);
    assert Traverse(Reader(r, 1), c[..2]) == Some(c[0]);
    assert Traverse(Reader(r, 1), c) == Some(c[0]);
  }

  function ExampleChain(): Chain {
    var w := START_TRANSACTION_ID + 2;
    [Version(0, false, Item(0, false, "")), Version(w, true, Item(0, false, "")), Version(w, false, Item(1, false, ""))]
  }

  /** The writer drops the entry and creates one of the same name. */
  lemma {:induction false} ExampleReplaces()
    ensures var w := START_TRANSACTION_ID + 2;
            var s4 := Run(ExampleWithBoth(), [DropEntry(w, "T", 0), CreateEntry(w, "T", false, "")]);
            s4.txns == ExampleWithBoth().txns && "T" in s4.entries && s4.entries["T"] == ExampleChain()
  {
    var w := START_TRANSACTION_ID + 2;
    var s2, steps := ExampleWithBoth(), [DropEntry(w, "T", 0), CreateEntry(w, "T", false, "")];
    var c := ExampleChain();
    var s3 := Apply(s2, steps[0]).0;
    assert s3.entries["T"] == [c[0], c[1]];
    var s4 := Apply(s3, steps[1]).0;
    assert s4.entries["T"] == c;
    assert steps[1..] == [steps[1]] && [steps[1]][1..] == [];
    assert Run(s3, [steps[1]]) == Run(s4, []);
  }

  function Example(): State {
    State(map["T" := [Version(0, false, Item(0, false, ""))]], 1, Txns(START_TRANSACTION_ID, 1, map[]), map[])
  }

  function ExampleWithBoth(): State {
    var r, w := START_TRANSACTION_ID + 1, START_TRANSACTION_ID + 2;
    Example().(txns := Txns(w, 1, map[r := Txn(1, false, Running), w := Txn(1, true, Running)]),
               undos := map[r := [], w := []])
  }

  lemma {:induction false} ExampleInitial()
    ensures Initial(Example())
  {
    var s := Example();
    assert Traverse(Latest(s.txns), s.entries["T"]) == Some(Version(0, false, Item(0, false, "")));
    assert Visible(Latest(s.txns), s.entries) == map["T" := Item(0, false, "")];
  }

  lemma {:induction false} ExampleBegins()
    ensures forall steps :: Run(Example(), [Begin(false), Begin(true)] + steps) == Run(ExampleWithBoth(), steps)
  {
    var s0 := Example();
    var s1 := Apply(s0, Begin(false)).0;
    var r := START_TRANSACTION_ID + 1;
    assert s1.txns.active == map[r := Txn(1, false, Running)];
    assert Quiet(s1.txns) && !HasWriter(s1.txns);
    var s2 := Apply(s1, Begin(true)).0;
    assert s2 == ExampleWithBoth();
    forall steps ensures Run(s0, [Begin(false), Begin(true)] + steps) == Run(s2, steps) {
      assert ([Begin(false), Begin(true)] + steps)[1..] == [Begin(true)] + steps;
      assert ([Begin(true)] + steps)[1..] == steps;
    }
  }

  // ----- renaming -----

  lemma {:induction false} CreateFailsIff(t: Reader, entries: Entries, name: string, item: Item)
    requires name in entries && entries[name] != [] ==>
      var top := entries[name][|entries[name]| - 1]; Sees(t, top) && !Conflicts(t, top)
    ensures Contains(t, entries, name) ==> Create(t, entries, name, item) == Fail(entries, AlreadyExists)
    ensures !Contains(t, entries, name) ==> Create(t, entries, name, item).error.None?
  {
  }

  /** Called directly, a rename that fails has already put a tombstone on the old name, for which
      there is no undo record, exactly when the writer sees both names and they differ. */
  lemma {:induction false} RenameLeavesTombstoneIff(s: State, id: nat, name: string, newName: string)
    requires Inv(s) && CanWrite(s, id)
    ensures var t := ReaderOf(s.txns, id);
            var o := Rename(t, s.entries, name, newName);
            && ((o.error.Some? && o.entries != s.entries) <==>
                (name != newName && Contains(t, s.entries, name) && Contains(t, s.entries, newName)))
            && (o.error.Some? ==> o.undo == [])
            && (o.error.Some? && o.entries != s.entries ==>
                  Visible(t, o.entries) == Visible(t, s.entries) - {name})
  {
    var t := ReaderOf(s.txns, id);
    if Contains(t, s.entries, name) {
      var item := Traverse(t, s.entries[name]).value.item;
      var tombstone := Version(id, true, Item(item.oid, false, ""));
      VisiblePush(t, s.entries, name, tombstone);
      TraversePush(t, s.entries[name], tombstone);
      var entries' := Emplace(s.entries, name, tombstone);
      assert entries' != s.entries by { assert |entries'[name]| == |s.entries[name]| + 1; }
      assert newName in entries' && entries'[newName] != [] ==>
        var top := entries'[newName][|entries'[newName]| - 1]; Sees(t, top) && !Conflicts(t, top)
      by {
        assert TxnOk(s.txns, id);
        if newName != name && newName in s.entries {
          assert ChainOk(s.txns, s.entries[newName]);
          WriterSeesTop(s.txns, id, s.entries[newName]);
        }
      }
      CreateFailsIff(t, entries', newName, item);
    }
  }

  // ----- writing a checkpoint and reading it back -----

  /** The entries a checkpoint writes: for every name whose newest version is not a built-in
      function, the newest committed version, unless it is deleted. */
  function Serialized(entries: Entries): View {
    map n | && n in entries && entries[n] != [] && !entries[n][|entries[n]| - 1].item.builtin
            && Committed(entries[n]).Some? && !Committed(entries[n]).value.deleted
      :: Committed(entries[n]).value.item
  }

  /** The catalog set read back from a checkpoint, with a new transaction manager. */
  function Reloaded(saved: View, nextOID: nat): State {
    State(map n | n in saved :: [Version(0, false, saved[n])], nextOID,
          Txns(START_TRANSACTION_ID, 1, map[]), map[])
  }

  lemma {:induction false} ReloadedView(saved: View, nextOID: nat, t: Reader)
    ensures Visible(t, Reloaded(saved, nextOID).entries) == saved
  {
    var entries := Reloaded(saved, nextOID).entries;
    forall n | n in saved ensures Traverse(t, entries[n]) == Some(Version(0, false, saved[n])) {}
  }

  lemma {:induction false} SerializedIsLatest(x: Txns, entries: Entries)
    requires ChainsOk(x, entries) && x.active == map[] && x.lastTS < START_TRANSACTION_ID
    ensures var latest := Visible(Latest(x), entries);
            Serialized(entries) == map n | n in latest && !latest[n].builtin :: latest[n]
  {
    forall n | n in entries
      ensures entries[n] != [] && Committed(entries[n]) == Some(entries[n][|entries[n]| - 1])
      ensures Traverse(Latest(x), entries[n]) == Committed(entries[n])
    {
      var c := entries[n];
      assert ChainOk(x, c);
      forall i | 0 <= i < |c| ensures c[i].timestamp <= x.lastTS { assert StampOk(x, c, i); }
      CommittedIsLatest(Latest(x), c);
    }
  }

  /** A checkpoint is taken when no transaction is active. Reading it back gives a catalog set
      that every later transaction sees as the last committed one without the built-in
      functions, and that is again an initial state, so no object id is used twice. */
  lemma {:induction false} CheckpointReload(s: State, steps: seq<Step>, t: Reader)
    requires Initial(s) && Run(s, steps).txns.active == map[]
    ensures var s' := Run(s, steps);
            var latest := Visible(Latest(s'.txns), s'.entries);
            var again := Reloaded(Serialized(s'.entries), s'.nextOID);
            && Initial(again)
            && Visible(t, again.entries) == map n | n in latest && !latest[n].builtin :: latest[n]
  {
    InitialRefines(s);
    RunRefines(s, Start(s), steps);
    var s' := Run(s, steps);
    var saved := Serialized(s'.entries);
    SerializedIsLatest(s'.txns, s'.entries);
    ReloadedView(saved, s'.nextOID, t);
    ReloadedView(saved, s'.nextOID, Latest(Reloaded(saved, s'.nextOID).txns));
    assert OidsOk(Visible(Latest(s'.txns), s'.entries), s'.nextOID) by {
      forall id ensures !IsCommitting(s'.txns, id) {}
    }
  }
}
