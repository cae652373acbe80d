/** Proof that the version chains give every transaction, in every run, exactly what a private
    copy of the catalog would give it. */
module CatalogRefinement {
  import opened CatalogVersions
  import opened CatalogMachine

  // ----- what single changes to the chains do to a view -----

  function Patch(view: View, name: string, v: Version): View {
    if v.deleted then view - {name} else view[name := v.item]
  }

  lemma {:induction false} VisiblePush(t: Reader, entries: Entries, name: string, v: Version)
    requires name in entries
    ensures Visible(t, Emplace(entries, name, v)) ==
            if Sees(t, v) then Patch(Visible(t, entries), name, v) else Visible(t, entries)
  {
    TraversePush(t, entries[name], v);
  }

  lemma {:induction false} VisibleNewChain(t: Reader, entries: Entries, name: string, oid: nat)
    requires name !in entries
    ensures Visible(t, entries[name := [Dummy(oid)]]) == Visible(t, entries)
  {
    assert Traverse(t, [Dummy(oid)]) == Some(Dummy(oid));
  }

  lemma {:induction false} VisibleRestamp(t: Reader, entries: Entries, r: Undo, ts: nat)
    requires Resolves(entries, r)
    requires var v := entries[r.name][r.below + 1]; Sees(t, v) == Sees(t, v.(timestamp := ts))
    ensures Visible(t, Restamp(entries, r, ts)) == Visible(t, entries)
  {
    var c := entries[r.name];
    if Sees(t, c[r.below + 1]) {
      TraverseRestampSeen(t, c, r.below + 1, ts);
    } else {
      TraverseRestamp(t, c, r.below + 1, ts);
    }
  }

  lemma {:induction false} VisibleUnlinkTop(t: Reader, entries: Entries, r: Undo)
    requires Resolves(entries, r) && r.below + 2 == |entries[r.name]|
    requires !Sees(t, entries[r.name][r.below + 1])
    ensures Visible(t, Unlink(entries, r)) == Visible(t, entries)
  {
    var c := entries[r.name];
    assert c[..r.below + 1] + c[r.below + 2..] == c[..|c| - 1];
  }

  /** Two readers that agree on which versions they see have the same view. */
  lemma {:induction false} SameView(t: Reader, u: Reader, entries: Entries)
    requires forall n, i :: n in entries && 0 <= i < |entries[n]| ==> Sees(t, entries[n][i]) == Sees(u, entries[n][i])
    ensures Visible(t, entries) == Visible(u, entries)
  {
    forall n | n in entries ensures Traverse(t, entries[n]) == Traverse(u, entries[n]) {
      SameTraverse(t, u, entries[n]);
    }
  }

  lemma {:induction false} SameTraverse(t: Reader, u: Reader, c: Chain)
    requires forall i :: 0 <= i < |c| ==> Sees(t, c[i]) == Sees(u, c[i])
    ensures Traverse(t, c) == Traverse(u, c)
  {
    if c != [] { SameTraverse(t, u, c[..|c| - 1]); }
  }

  // ----- every step keeps the invariant and stays in step with the copies -----

  ghost predicate StepOk(s: State, a: Copies, step: Step) {
    var (s', reply) := Apply(s, step);
    && ReplyFits(a, step, reply)
    && Inv(s')
    && SameViews(s', Updated(a, step, reply))
  }

  function Pushed(s: State, id: nat, name: string, v: Version): State
    requires id in s.undos && name in s.entries && s.entries[name] != []
  {
    s.(entries := Emplace(s.entries, name, v),
       undos := s.undos[id := s.undos[id] + [Undo(name, |s.entries[name]| - 1)]])
  }

  lemma {:induction false} PushUndoOk(entries: Entries, id: nat, pending: seq<Undo>, name: string, v: Version)
    requires UndoOk(entries, id, pending) && v.timestamp == id
    requires name in entries && entries[name] != []
    ensures UndoOk(Emplace(entries, name, v), id, pending + [Undo(name, |entries[name]| - 1)])
  {
    var c := entries[name];
    var entries' := Emplace(entries, name, v);
    var pending' := pending + [Undo(name, |c| - 1)];
    forall r | r in pending' ensures Owns(entries', id, r.name, r.below + 1) {
      if r in pending { assert Owns(entries, id, r.name, r.below + 1); }
    }
    forall n, i | Owns(entries', id, n, i) ensures i > 0 && Undo(n, i - 1) in pending' {
      if Owns(entries, id, n, i) {
        assert Undo(n, i - 1) in pending;
      } else {
        assert pending'[|pending|] == Undo(n, i - 1);
      }
    }
    forall j, k | 0 <= j < k < |pending'| ensures Before(pending'[j], pending'[k]) {
      if k == |pending| {
        assert pending[j] in pending && Owns(entries, id, pending[j].name, pending[j].below + 1);
      } else {
        assert Before(pending[j], pending[k]);
      }
    }
  }

  lemma {:induction false} PushShape(x: Txns, entries: Entries, id: nat, name: string, v: Version)
    requires TxnsOk(x) && ChainsOk(x, entries) && AllRising(entries) && IsWriter(x, id)
    requires name in entries && v.timestamp == id
    ensures ChainsOk(x, Emplace(entries, name, v)) && AllRising(Emplace(entries, name, v))
  {
    var c := entries[name];
    var c' := c + [v];
    assert ChainOk(x, c) && Rising(c) && TxnOk(x, id);
    forall i | 0 <= i < |c'| ensures StampOk(x, c', i) { assert i < |c| ==> StampOk(x, c, i); }
    forall i, j | 0 <= i < j < |c'| ensures NotAbove(c', i, j) {
      assert StampOk(x, c, i) && (j < |c| ==> NotAbove(c, i, j));
    }
    forall n | n in entries && n != name ensures ChainOk(x, entries[n]) && Rising(entries[n]) {}
  }

  lemma {:induction false} PushView(x: Txns, entries: Entries, other: nat, view: View, id: nat, name: string,
                                    v: Version)
    requires TxnsOk(x) && IsWriter(x, id) && x.active[id].phase.Running?
    requires name in entries && v.timestamp == id && SeesCopy(x, entries, other, view)
    ensures SeesCopy(x, Emplace(entries, name, v), other, if other == id then Patch(view, name, v) else view)
  {
    assert TxnOk(x, other) && TxnOk(x, id);
    VisiblePush(ReaderOf(x, other), entries, name, v);
  }

  /** A push by the running writer. */
  lemma {:induction false} Push(s: State, a: Copies, id: nat, name: string, v: Version)
    requires Inv(s) && SameViews(s, a) && CanWrite(s, id)
    requires name in s.entries && v.timestamp == id
    ensures s.entries[name] != [] && Inv(Pushed(s, id, name, v))
    ensures SameViews(Pushed(s, id, name, v), a.(views := a.views[id := Patch(a.views[id], name, v)]))
  {
    assert s.entries[name] != [] by { assert ChainOk(s.txns, s.entries[name]); }
    var s' := Pushed(s, id, name, v);
    assert IsWriter(s.txns, id);
    PushShape(s.txns, s.entries, id, name, v);
    forall other | IsWriter(s'.txns, other) ensures WriterUndoOk(s', other) {
      assert other == id && WriterUndoOk(s, id);
      PushUndoOk(s.entries, id, s.undos[id], name, v);
    }
    var a' := a.(views := a.views[id := Patch(a.views[id], name, v)]);
    forall other | other in a'.views ensures SeesCopy(s'.txns, s'.entries, other, a'.views[other]) {
      PushView(s.txns, s.entries, other, a.views[other], id, name, v);
    }
    assert TxnOk(s.txns, id);
    VisiblePush(Latest(s.txns), s.entries, name, v);
  }

  lemma {:induction false} NewChainShape(x: Txns, entries: Entries, name: string, oid: nat)
    requires ChainsOk(x, entries) && AllRising(entries)
    ensures ChainsOk(x, entries[name := [Dummy(oid)]]) && AllRising(entries[name := [Dummy(oid)]])
  {
    forall n | n in entries && n != name ensures ChainOk(x, entries[n]) && Rising(entries[n]) {}
    assert ChainOk(x, [Dummy(oid)]) && Rising([Dummy(oid)]);
  }

  lemma {:induction false} NewChainUndoOk(entries: Entries, id: nat, pending: seq<Undo>, name: string, oid: nat)
    requires UndoOk(entries, id, pending) && name !in entries && id > 0
    ensures UndoOk(entries[name := [Dummy(oid)]], id, pending)
  {
    var entries' := entries[name := [Dummy(oid)]];
    forall r | r in pending ensures Owns(entries', id, r.name, r.below + 1) {
      assert Owns(entries, id, r.name, r.below + 1);
    }
    forall n, i | Owns(entries', id, n, i) ensures Owns(entries, id, n, i) {}
  }

  /** A new chain that holds only a dummy. */
  lemma {:induction false} NewChain(s: State, a: Copies, name: string, oid: nat)
    requires Inv(s) && SameViews(s, a) && name !in s.entries
    ensures Inv(s.(entries := s.entries[name := [Dummy(oid)]]))
    ensures SameViews(s.(entries := s.entries[name := [Dummy(oid)]]), a)
  {
    var s' := s.(entries := s.entries[name := [Dummy(oid)]]);
    NewChainShape(s.txns, s.entries, name, oid);
    forall id | IsWriter(s'.txns, id) ensures WriterUndoOk(s', id) {
      assert WriterUndoOk(s, id) && TxnOk(s.txns, id);
      NewChainUndoOk(s.entries, id, Pending(s.txns.active[id], s.undos[id]), name, oid);
    }
    forall id | id in a.views ensures SeesCopy(s'.txns, s'.entries, id, a.views[id]) {
      assert SeesCopy(s.txns, s.entries, id, a.views[id]);
      VisibleNewChain(ReaderOf(s.txns, id), s.entries, name, oid);
    }
    VisibleNewChain(Latest(s.txns), s.entries, name, oid);
  }

  lemma {:induction false} CounterOk(s: State, a: Copies, s': State, a': Copies)
    requires Inv(s) && SameViews(s, a)
    requires s' == s.(nextOID := s'.nextOID) && a' == a.(nextOID := s'.nextOID)
    ensures Inv(s') && SameViews(s', a')
  {
    forall id | IsWriter(s'.txns, id) ensures WriterUndoOk(s', id) { assert WriterUndoOk(s, id); }
    forall id | id in a'.views ensures SeesCopy(s'.txns, s'.entries, id, a'.views[id]) {
      assert SeesCopy(s.txns, s.entries, id, a.views[id]);
    }
  }

  /** A running writer sees the top of every chain, so it never meets a write conflict. */
  lemma {:induction false} WriterSeesTop(x: Txns, id: nat, c: Chain)
    requires TxnsOk(x) && ChainOk(x, c) && IsWriter(x, id) && x.active[id].phase.Running?
    ensures Traverse(ReaderOf(x, id), c) == Some(c[|c| - 1]) && Sees(ReaderOf(x, id), c[|c| - 1])
    ensures !Conflicts(ReaderOf(x, id), c[|c| - 1])
  {
    assert TxnOk(x, id) && StampOk(x, c, |c| - 1);
  }

  /** What creation does to the chains when nothing is in its way: a push, after a dummy if
      the name is new. */
  lemma {:induction false} CreatePushes(s: State, id: nat, name: string, item: Item)
    requires CanWrite(s, id)
    requires !Contains(ReaderOf(s.txns, id), s.entries, name)
    requires name in s.entries ==>
      && s.entries[name] != []
      && s.entries[name][|s.entries[name]| - 1].deleted
      && !Conflicts(ReaderOf(s.txns, id), s.entries[name][|s.entries[name]| - 1])
    ensures var o := Create(ReaderOf(s.txns, id), s.entries, name, item);
            var based := if name in s.entries then s else s.(entries := s.entries[name := [Dummy(item.oid)]]);
            && o.error.None?
            && Written(s, id, o).0 == Pushed(based, id, name, Version(id, false, item))
  {
  }

  lemma {:induction false} WriterCopy(s: State, a: Copies, id: nat)
    requires SameViews(s, a) && CanWrite(s, id)
    ensures id in a.views && Visible(ReaderOf(s.txns, id), s.entries) == a.views[id]
  {
    assert SeesCopy(s.txns, s.entries, id, a.views[id]);
  }

  /** A creation that the copy allows, on the chains. */
  lemma {:induction false} CreateShape(s: State, a: Copies, id: nat, name: string, item: Item)
    requires Inv(s) && SameViews(s, a) && CanWrite(s, id) && name !in a.views[id]
    ensures var o := Create(ReaderOf(s.txns, id), s.entries, name, item);
            && o.error.None?
            && Inv(Written(s, id, o).0)
            && SameViews(Written(s, id, o).0, a.(views := a.views[id := a.views[id][name := item]]))
  {
    assert !Contains(ReaderOf(s.txns, id), s.entries, name) by { WriterCopy(s, a, id); }
    if name in s.entries {
      assert ChainOk(s.txns, s.entries[name]);
      WriterSeesTop(s.txns, id, s.entries[name]);
    }
    CreatePushes(s, id, name, item);
    var based := if name in s.entries then s else s.(entries := s.entries[name := [Dummy(item.oid)]]);
    if name !in s.entries { NewChain(s, a, name, item.oid); }
    Push(based, a, id, name, Version(id, false, item));
  }

  lemma {:induction false} CreateOk(s: State, a: Copies, id: nat, name: string, builtin: bool, content: string)
    requires Inv(s) && SameViews(s, a)
    ensures StepOk(s, a, CreateEntry(id, name, builtin, content))
  {
    if CanWrite(s, id) {
      var s1, a1 := s.(nextOID := s.nextOID + 1), a.(nextOID := a.nextOID + 1);
      CounterOk(s, a, s1, a1);
      WriterCopy(s, a, id);
      if name !in a.views[id] {
        CreateShape(s1, a1, id, name, Item(s.nextOID, builtin, content));
      }
    }
  }

  lemma {:induction false} DropOk(s: State, a: Copies, id: nat, name: string, oid: nat)
    requires Inv(s) && SameViews(s, a)
    ensures StepOk(s, a, DropEntry(id, name, oid))
  {
    if CanWrite(s, id) {
      WriterCopy(s, a, id);
      if name in a.views[id] {
        Push(s, a, id, name, Version(id, true, Item(oid, false, "")));
      }
    }
  }

  lemma {:induction false} AlterOk(s: State, a: Copies, id: nat, name: string, content: string)
    requires Inv(s) && SameViews(s, a)
    ensures StepOk(s, a, AlterEntry(id, name, content))
  {
    if CanWrite(s, id) {
      WriterCopy(s, a, id);
      if name in a.views[id] {
        Push(s, a, id, name, Version(id, false, a.views[id][name].(content := content)));
      }
    }
  }

  lemma {:induction false} RenameIsDropThenCreate(s: State, id: nat, name: string, newName: string, item: Item)
    requires CanWrite(s, id)
    requires var t := ReaderOf(s.txns, id);
             && !Contains(t, s.entries, newName)
             && Contains(t, s.entries, name) && Traverse(t, s.entries[name]).value.item == item
    requires var s1 := Pushed(s, id, name, Version(id, true, Item(item.oid, false, "")));
             Create(ReaderOf(s1.txns, id), s1.entries, newName, item).error.None?
    ensures var s1 := Pushed(s, id, name, Version(id, true, Item(item.oid, false, "")));
            Apply(s, RenameEntry(id, name, newName)) ==
            Written(s1, id, Create(ReaderOf(s1.txns, id), s1.entries, newName, item))
  {
    var s1 := Pushed(s, id, name, Version(id, true, Item(item.oid, false, "")));
    var u0, u1, u2 := s.undos[id], [Undo(name, |s.entries[name]| - 1)],
                      Create(ReaderOf(s1.txns, id), s1.entries, newName, item).undo;
    assert s1.undos[id := (u0 + u1) + u2] == s.undos[id := u0 + (u1 + u2)] by {
      assert (u0 + u1) + u2 == u0 + (u1 + u2);
    }
  }

  lemma {:induction false} RenameOk(s: State, a: Copies, id: nat, name: string, newName: string)
    requires Inv(s) && SameViews(s, a)
    ensures StepOk(s, a, RenameEntry(id, name, newName))
  {
    if CanWrite(s, id) {
      WriterCopy(s, a, id);
      if newName !in a.views[id] && name in a.views[id] {
        var item := a.views[id][name];
        var tombstone := Version(id, true, Item(item.oid, false, ""));
        Push(s, a, id, name, tombstone);
        var s1, a1 := Pushed(s, id, name, tombstone), a.(views := a.views[id := a.views[id] - {name}]);
        CreateShape(s1, a1, id, newName, item);
        RenameIsDropThenCreate(s, id, name, newName, item);
      }
    }
  }

  // ----- beginning and leaving -----

  ghost predicate NoVersionOf(entries: Entries, id: nat) {
    forall n, i {:trigger Owns(entries, id, n, i)} :: !Owns(entries, id, n, i)
  }

  /** No version carries an id that no active writer has. */
  lemma {:induction false} OnlyWritersOwn(x: Txns, entries: Entries, id: nat)
    requires ChainsOk(x, entries) && id > x.lastTS && !IsWriter(x, id)
    ensures NoVersionOf(entries, id)
  {
    forall n, i ensures !Owns(entries, id, n, i) {
      assert n in entries ==> ChainOk(x, entries[n]);
      assert Owns(entries, id, n, i) ==> StampOk(x, entries[n], i);
    }
  }

  lemma {:induction false} NobodyIsLatest(x: Txns)
    requires TxnsOk(x)
    ensures START_TRANSACTION_ID !in x.active
  {
    assert START_TRANSACTION_ID in x.active ==> TxnOk(x, START_TRANSACTION_ID);
  }

  /** Readers with the same start timestamp and no versions of their own read the same. */
  lemma {:induction false} SameStart(entries: Entries, t: Reader, u: Reader)
    requires t.startTS == u.startTS && NoVersionOf(entries, t.id) && NoVersionOf(entries, u.id)
    ensures Visible(t, entries) == Visible(u, entries)
  {
    forall n, i | n in entries && 0 <= i < |entries[n]|
      ensures Sees(t, entries[n][i]) == Sees(u, entries[n][i])
    {
      assert !Owns(entries, t.id, n, i) && !Owns(entries, u.id, n, i);
    }
    SameView(t, u, entries);
  }

  lemma {:induction false} BeginTxns(x: Txns, write: bool)
    requires TxnsOk(x) && Quiet(x) && !(write && HasWriter(x))
    ensures x.lastID + 1 !in x.active
    ensures TxnsOk(Txns(x.lastID + 1, x.lastTS, x.active[x.lastID + 1 := Txn(x.lastTS, write, Running)]))
  {
    var me := x.lastID + 1;
    var x' := Txns(me, x.lastTS, x.active[me := Txn(x.lastTS, write, Running)]);
    assert me in x.active ==> TxnOk(x, me);
    forall id | id in x'.active ensures TxnOk(x', id) { assert id == me || TxnOk(x, id); }
    forall i, j | IsWriter(x', i) && IsWriter(x', j) ensures i == j {
      assert (i != me ==> IsWriter(x, i)) && (j != me ==> IsWriter(x, j));
    }
    forall i ensures !IsCommitting(x', i) {}
  }

  lemma {:induction false} KeepChains(x: Txns, x': Txns, entries: Entries)
    requires ChainsOk(x, entries) && x.lastTS <= x'.lastTS
    requires forall id :: IsWriter(x, id) && !NoVersionOf(entries, id) ==> IsWriter(x', id)
    ensures ChainsOk(x', entries)
  {
    forall n | n in entries ensures ChainOk(x', entries[n]) {
      var c := entries[n];
      assert ChainOk(x, c);
      forall i | 0 <= i < |c| ensures StampOk(x', c, i) {
        assert StampOk(x, c, i) && Owns(entries, c[i].timestamp, n, i);
      }
    }
  }

  lemma {:induction false} BeginKeepsInv(s: State, write: bool)
    requires Inv(s) && Quiet(s.txns) && !(write && HasWriter(s.txns))
    ensures Inv(Apply(s, Begin(write)).0)
  {
    var x, me := s.txns, s.txns.lastID + 1;
    var s' := Apply(s, Begin(write)).0;
    var x' := s'.txns;
    BeginTxns(x, write);
    KeepChains(x, x', s.entries);
    forall id | IsWriter(x', id) ensures WriterUndoOk(s', id) {
      if id == me {
        OnlyWritersOwn(x, s.entries, me);
        assert Pending(x'.active[me], []) == [];
      } else {
        assert IsWriter(x, id) && WriterUndoOk(s, id);
      }
    }
  }

  lemma {:induction false} BeginSees(s: State, a: Copies)
    requires Inv(s) && SameViews(s, a) && Quiet(s.txns)
    ensures s.txns.lastID + 1 !in s.txns.active &&
            Visible(Reader(s.txns.lastID + 1, s.txns.lastTS), s.entries) == a.committed
  {
    var x, me := s.txns, s.txns.lastID + 1;
    assert me in x.active ==> TxnOk(x, me);
    OnlyWritersOwn(x, s.entries, me);
    NobodyIsLatest(x);
    OnlyWritersOwn(x, s.entries, START_TRANSACTION_ID);
    forall id ensures !IsCommitting(x, id) {}
    SameStart(s.entries, Reader(me, x.lastTS), Latest(x));
  }

  lemma {:induction false} BeginOk(s: State, a: Copies, write: bool)
    requires Inv(s) && SameViews(s, a)
    ensures StepOk(s, a, Begin(write))
  {
    var x := s.txns;
    if Quiet(x) && !(write && HasWriter(x)) {
      BeginKeepsInv(s, write);
      BeginSees(s, a);
      var s', a' := Apply(s, Begin(write)).0, Updated(a, Begin(write), Done);
      forall id | id in a'.views ensures SeesCopy(s'.txns, s'.entries, id, a'.views[id]) {
        assert id == x.lastID + 1 || SeesCopy(x, s.entries, id, a.views[id]);
      }
      forall id ensures IsCommitting(s'.txns, id) == IsCommitting(x, id) {}
    }
  }

  /** Removing a transaction that has no version in any chain. */
  lemma {:induction false} LeaveOk(s: State, a: Copies, id: nat)
    requires Inv(s) && id in s.txns.active && NoVersionOf(s.entries, id)
    requires a.views.Keys == s.txns.active.Keys && SameViews(s, a)
    ensures Inv(Left(s, id))
    ensures !IsCommitting(s.txns, id) ==> SameViews(Left(s, id), a.(views := a.views - {id}))
    ensures IsCommitting(s.txns, id) ==>
              SameViews(Left(s, id), a.(committed := a.views[id], views := a.views - {id}))
  {
    var s' := Left(s, id);
    var x, x' := s.txns, s'.txns;
    forall other | other in x'.active ensures TxnOk(x', other) { assert TxnOk(x, other); }
    forall other ensures IsWriter(x', other) ==> IsWriter(x, other) {}
    forall other ensures IsCommitting(x', other) ==> IsCommitting(x, other) {}
    forall other | IsWriter(x, other) && other != id ensures IsWriter(x', other) {}
    KeepChains(x, x', s.entries);
    forall other | IsWriter(x', other) ensures WriterUndoOk(s', other) { assert WriterUndoOk(s, other); }
    forall other | other in a.views && other != id ensures SeesCopy(x', s'.entries, other, a.views[other]) {
      assert SeesCopy(x, s.entries, other, a.views[other]);
    }
    assert TxnOk(x, id);
    if IsCommitting(x, id) {
      assert SeesCopy(x, s.entries, id, a.views[id]);
      NobodyIsLatest(x);
      OnlyWritersOwn(x, s.entries, START_TRANSACTION_ID);
      SameStart(s.entries, ReaderOf(x, id), Latest(x));
    } else if NoCommit(x') {
      forall other ensures !IsCommitting(x, other) { assert !IsCommitting(x', other); }
    }
  }

  lemma {:induction false} CloseOk(s: State, a: Copies, id: nat)
    requires Inv(s) && SameViews(s, a)
    ensures StepOk(s, a, CloseReader(id))
  {
    if Apply(s, CloseReader(id)).1.Done? {
      assert TxnOk(s.txns, id);
      OnlyWritersOwn(s.txns, s.entries, id);
      LeaveOk(s, a, id);
    }
  }

  // ----- commit -----

  lemma {:induction false} CommitBeginTxns(x: Txns, id: nat)
    requires TxnsOk(x) && Quiet(x) && IsWriter(x, id) && x.lastTS + 1 < START_TRANSACTION_ID
    ensures TxnsOk(InPhase(x, id, Committing(0)).(lastTS := x.lastTS + 1))
  {
    var x' := InPhase(x, id, Committing(0)).(lastTS := x.lastTS + 1);
    forall other | other in x'.active ensures TxnOk(x', other) {
      assert TxnOk(x, other) && (IsWriter(x, other) ==> other == id);
    }
    forall other ensures IsWriter(x', other) == IsWriter(x, other) {}
    forall i, j | IsCommitting(x', i) && j in x'.active && i != j ensures x'.active[j].startTS < x'.lastTS {
      assert TxnOk(x, j);
    }
  }

  lemma {:induction false} CommitBeginOk(s: State, a: Copies, id: nat)
    requires Inv(s) && SameViews(s, a)
    ensures StepOk(s, a, CommitBegin(id))
  {
    var x := s.txns;
    if Apply(s, CommitBegin(id)).1.Done? {
      var s' := Apply(s, CommitBegin(id)).0;
      var x' := s'.txns;
      CommitBeginTxns(x, id);
      forall other ensures IsWriter(x', other) == IsWriter(x, other) {}
      KeepChains(x, x', s.entries);
      assert TxnOk(x, id);
      forall other | IsWriter(x', other) ensures WriterUndoOk(s', other) {
        assert WriterUndoOk(s, other) && Pending(x'.active[other], s.undos[other]) == s.undos[other];
      }
      forall n, i | n in s.entries && 0 <= i < |s.entries[n]|
        ensures Sees(ReaderOf(x, id), s.entries[n][i]) == Sees(ReaderOf(x', id), s.entries[n][i])
      {
        assert ChainOk(x, s.entries[n]) && StampOk(x, s.entries[n], i) && IsWriter(x, id);
      }
      SameView(ReaderOf(x, id), ReaderOf(x', id), s.entries);
      forall other | other in a.views ensures SeesCopy(x', s.entries, other, a.views[other]) {
        assert SeesCopy(x, s.entries, other, a.views[other]);
      }
      assert IsCommitting(x', id);
    }
  }

  lemma {:induction false} CommitRecordUndoOk(entries: Entries, id: nat, pending: seq<Undo>, ts: nat)
    requires UndoOk(entries, id, pending) && pending != [] && ts != id
    ensures Resolves(entries, pending[0])
    ensures UndoOk(Restamp(entries, pending[0], ts), id, pending[1..])
  {
    var r := pending[0];
    assert r in pending && Owns(entries, id, r.name, r.below + 1);
    var entries' := Restamp(entries, r, ts);
    forall q | q in pending[1..] ensures Owns(entries', id, q.name, q.below + 1) {
      var k :| 1 <= k < |pending| && pending[k] == q;
      assert q in pending && Owns(entries, id, q.name, q.below + 1) && Before(pending[0], pending[k]);
    }
    forall n, i | Owns(entries', id, n, i) ensures i > 0 && Undo(n, i - 1) in pending[1..] {
      assert Owns(entries, id, n, i);
      assert Undo(n, i - 1) in pending && Undo(n, i - 1) != r;
    }
    forall j, k | 0 <= j < k < |pending[1..]| ensures Before(pending[1..][j], pending[1..][k]) {
      assert Before(pending[j + 1], pending[k + 1]);
    }
  }

  lemma {:induction false} CommitRecordShape(x: Txns, entries: Entries, id: nat, pending: seq<Undo>)
    requires TxnsOk(x) && ChainsOk(x, entries) && AllRising(entries) && IsWriter(x, id)
    requires UndoOk(entries, id, pending) && pending != [] && Resolves(entries, pending[0])
    ensures ChainsOk(x, Restamp(entries, pending[0], x.lastTS))
    ensures AllRising(Restamp(entries, pending[0], x.lastTS))
  {
    var r := pending[0];
    assert r in pending && Owns(entries, id, r.name, r.below + 1) && TxnOk(x, id);
    var at := r.below + 1;
    var c := entries[r.name];
    var c' := c[at := c[at].(timestamp := x.lastTS)];
    assert ChainOk(x, c) && Rising(c);
    forall i | 0 <= i < |c'| ensures StampOk(x, c', i) { assert StampOk(x, c, i); }
    forall i | 0 <= i < at ensures c[i].timestamp <= x.lastTS {
      assert StampOk(x, c, i);
      assert Owns(entries, id, r.name, i) ==> Undo(r.name, i - 1) in pending;
      assert forall k :: 0 < k < |pending| ==> Before(pending[0], pending[k]);
    }
    forall i, j | 0 <= i < j < |c'| ensures NotAbove(c', i, j) { assert NotAbove(c, i, j); }
    forall n | n in entries && n != r.name ensures ChainOk(x, entries[n]) && Rising(entries[n]) {}
  }

  lemma {:induction false} NextRecordTxns(x: Txns, id: nat, done: nat)
    requires TxnsOk(x) && IsCommitting(x, id)
    ensures TxnsOk(InPhase(x, id, Committing(done)))
  {
    var x' := InPhase(x, id, Committing(done));
    forall other | other in x'.active ensures TxnOk(x', other) { assert TxnOk(x, other); }
    forall other ensures IsWriter(x', other) == IsWriter(x, other) {}
    forall other ensures IsCommitting(x', other) == IsCommitting(x, other) {}
    forall i, j | IsCommitting(x', i) && j in x'.active && i != j ensures x'.active[j].startTS < x'.lastTS {
      assert IsCommitting(x, i) && x.active[j].startTS == x'.active[j].startTS;
    }
  }

  lemma {:induction false} CommitRecordOk(s: State, a: Copies, id: nat)
    requires Inv(s) && SameViews(s, a)
    ensures StepOk(s, a, CommitRecord(id))
  {
    var x := s.txns;
    if Apply(s, CommitRecord(id)).1.Done? {
      var s' := Apply(s, CommitRecord(id)).0;
      var x' := s'.txns;
      var done := x.active[id].phase.done;
      var pending := Pending(x.active[id], s.undos[id]);
      assert TxnOk(x, id) && IsWriter(x, id) && WriterUndoOk(s, id) && IsCommitting(x, id);
      assert pending[0] == s.undos[id][done] && pending[1..] == s.undos[id][done + 1..];
      CommitRecordUndoOk(s.entries, id, pending, x.lastTS);
      CommitRecordShape(x, s.entries, id, pending);
      NextRecordTxns(x, id, done + 1);
      forall other ensures IsWriter(x', other) == IsWriter(x, other) {}
      KeepChains(x, x', s'.entries);
      forall other | IsWriter(x', other) ensures WriterUndoOk(s', other) { assert other == id; }
      forall other | other in a.views ensures SeesCopy(x', s'.entries, other, a.views[other]) {
        RestampView(x, s.entries, id, pending, other, a.views[other]);
        assert ReaderOf(x', other) == ReaderOf(x, other);
      }
      assert IsCommitting(x', id);
    }
  }

  lemma {:induction false} RestampView(x: Txns, entries: Entries, id: nat, pending: seq<Undo>, other: nat, view: View)
    requires TxnsOk(x) && IsCommitting(x, id) && UndoOk(entries, id, pending) && pending != []
    requires SeesCopy(x, entries, other, view)
    ensures SeesCopy(x, Restamp(entries, pending[0], x.lastTS), other, view)
  {
    var r := pending[0];
    assert r in pending && Owns(entries, id, r.name, r.below + 1);
    assert TxnOk(x, other) && TxnOk(x, id) && (other != id ==> x.active[other].startTS < x.lastTS);
    if !x.active[other].phase.RollingBack? {
      assert other == id || !IsCommitting(x, other) by {
        if other != id && IsCommitting(x, other) { assert IsWriter(x, other) && IsWriter(x, id); }
      }
      VisibleRestamp(ReaderOf(x, other), entries, r, x.lastTS);
    }
  }

  lemma {:induction false} CommitEndOk(s: State, a: Copies, id: nat)
    requires Inv(s) && SameViews(s, a)
    ensures StepOk(s, a, CommitEnd(id))
  {
    if Apply(s, CommitEnd(id)).1.Done? {
      assert TxnOk(s.txns, id) && IsWriter(s.txns, id) && WriterUndoOk(s, id) && IsCommitting(s.txns, id);
      assert Pending(s.txns.active[id], s.undos[id]) == [];
      assert NoVersionOf(s.entries, id);
      LeaveOk(s, a, id);
    }
  }

  // ----- rollback -----

  lemma {:induction false} RollbackBeginOk(s: State, a: Copies, id: nat)
    requires Inv(s) && SameViews(s, a)
    ensures StepOk(s, a, RollbackBegin(id))
  {
    var x := s.txns;
    if Apply(s, RollbackBegin(id)).1.Done? {
      var s' := Apply(s, RollbackBegin(id)).0;
      var x' := s'.txns;
      forall other | other in x'.active ensures TxnOk(x', other) { assert TxnOk(x, other); }
      forall other ensures IsWriter(x', other) == IsWriter(x, other) {}
      forall other ensures IsCommitting(x', other) == IsCommitting(x, other) {}
      KeepChains(x, x', s.entries);
      forall other | IsWriter(x', other) ensures WriterUndoOk(s', other) { assert WriterUndoOk(s, other); }
      forall other | other in a.views ensures SeesCopy(x', s.entries, other, a.views[other]) {
        assert SeesCopy(x, s.entries, other, a.views[other]);
      }
    }
  }

  /** The record rolled back last in, first out is always the top of its chain. */
  lemma {:induction false} LastRecordOnTop(x: Txns, entries: Entries, id: nat, pending: seq<Undo>)
    requires TxnsOk(x) && ChainsOk(x, entries) && AllRising(entries) && IsWriter(x, id)
    requires UndoOk(entries, id, pending) && pending != []
    ensures var r := pending[|pending| - 1];
            Resolves(entries, r) && r.below + 2 == |entries[r.name]| && entries[r.name][r.below + 1].timestamp == id
  {
    var last := |pending| - 1;
    var r := pending[last];
    assert r in pending && Owns(entries, id, r.name, r.below + 1) && TxnOk(x, id);
    var c := entries[r.name];
    var top := |c| - 1;
    assert ChainOk(x, c) && Rising(c) && StampOk(x, c, top);
    assert r.below + 1 < top ==> NotAbove(c, r.below + 1, top);
    assert Owns(entries, id, r.name, top);
    var k :| 0 <= k < |pending| && pending[k] == Undo(r.name, top - 1);
    assert k < last ==> Before(pending[k], pending[last]);
  }

  lemma {:induction false} RollbackUndoOk(entries: Entries, id: nat, pending: seq<Undo>)
    requires UndoOk(entries, id, pending) && pending != []
    requires var r := pending[|pending| - 1]; Resolves(entries, r) && r.below + 2 == |entries[r.name]|
    ensures UndoOk(Unlink(entries, pending[|pending| - 1]), id, pending[..|pending| - 1])
  {
    var last := |pending| - 1;
    var r := pending[last];
    var c := entries[r.name];
    var entries' := Unlink(entries, r);
    assert entries'[r.name] == c[..|c| - 1];
    forall q | q in pending[..last] ensures Owns(entries', id, q.name, q.below + 1) {
      var k :| 0 <= k < last && pending[k] == q;
      assert q in pending && Owns(entries, id, q.name, q.below + 1) && Before(pending[k], pending[last]);
    }
    forall n, i | Owns(entries', id, n, i) ensures i > 0 && Undo(n, i - 1) in pending[..last] {
      assert Owns(entries, id, n, i);
      assert Undo(n, i - 1) in pending && Undo(n, i - 1) != r;
    }
    forall j, k | 0 <= j < k < |pending[..last]| ensures Before(pending[..last][j], pending[..last][k]) {
      assert Before(pending[j], pending[k]);
    }
  }

  lemma {:induction false} UnlinkShape(x: Txns, entries: Entries, r: Undo)
    requires ChainsOk(x, entries) && AllRising(entries)
    requires Resolves(entries, r) && r.below + 2 == |entries[r.name]|
    ensures ChainsOk(x, Unlink(entries, r)) && AllRising(Unlink(entries, r))
  {
    var c := entries[r.name];
    var c' := c[..|c| - 1];
    assert Unlink(entries, r)[r.name] == c';
    assert ChainOk(x, c) && Rising(c);
    forall i | 0 <= i < |c'| ensures StampOk(x, c', i) { assert StampOk(x, c, i); }
    forall i, j | 0 <= i < j < |c'| ensures NotAbove(c', i, j) { assert NotAbove(c, i, j); }
    forall n | n in entries && n != r.name ensures ChainOk(x, entries[n]) && Rising(entries[n]) {}
  }

  lemma {:induction false} RollbackRecordOk(s: State, a: Copies, id: nat)
    requires Inv(s) && SameViews(s, a)
    ensures StepOk(s, a, RollbackRecord(id))
  {
    var x := s.txns;
    if Apply(s, RollbackRecord(id)).1.Done? {
      var s' := Apply(s, RollbackRecord(id)).0;
      var pending := s.undos[id];
      var r := pending[|pending| - 1];
      assert TxnOk(x, id) && IsWriter(x, id) && WriterUndoOk(s, id);
      LastRecordOnTop(x, s.entries, id, pending);
      RollbackUndoOk(s.entries, id, pending);
      UnlinkShape(x, s.entries, r);
      forall other | IsWriter(x, other) ensures WriterUndoOk(s', other) { assert other == id; }
      forall other | other in a.views ensures SeesCopy(x, s'.entries, other, a.views[other]) {
        assert SeesCopy(x, s.entries, other, a.views[other]) && TxnOk(x, other);
        if other != id { VisibleUnlinkTop(ReaderOf(x, other), s.entries, r); }
      }
      VisibleUnlinkTop(Latest(x), s.entries, r);
    }
  }

  lemma {:induction false} RollbackEndOk(s: State, a: Copies, id: nat)
    requires Inv(s) && SameViews(s, a)
    ensures StepOk(s, a, RollbackEnd(id))
  {
    if Apply(s, RollbackEnd(id)).1.Done? {
      assert TxnOk(s.txns, id) && IsWriter(s.txns, id) && WriterUndoOk(s, id);
      assert NoVersionOf(s.entries, id);
      LeaveOk(s, a, id);
    }
  }

  // ----- replies -----

  lemma {:induction false} StepKeepsViews(s: State, a: Copies, step: Step)
    requires Inv(s) && SameViews(s, a)
    ensures StepOk(s, a, step)
  {
    match step
    case Begin(write) => BeginOk(s, a, write);
    case CloseReader(id) => CloseOk(s, a, id);
    case NextOID => CounterOk(s, a, Apply(s, step).0, Updated(a, step, Done));
    case CreateEntry(id, name, builtin, content) => CreateOk(s, a, id, name, builtin, content);
    case DropEntry(id, name, oid) => DropOk(s, a, id, name, oid);
    case AlterEntry(id, name, content) => AlterOk(s, a, id, name, content);
    case RenameEntry(id, name, newName) => RenameOk(s, a, id, name, newName);
    case CommitBegin(id) => CommitBeginOk(s, a, id);
    case CommitRecord(id) => CommitRecordOk(s, a, id);
    case CommitEnd(id) => CommitEndOk(s, a, id);
    case RollbackBegin(id) => RollbackBeginOk(s, a, id);
    case RollbackRecord(id) => RollbackRecordOk(s, a, id);
    case RollbackEnd(id) => RollbackEndOk(s, a, id);
  }

  lemma {:induction false} LedgerTells(s: State, a: Copies)
    requires Inv(s) && Refines(s, a)
    ensures Quiet(s.txns) <==> Idle(a.ledger)
    ensures HasWriter(s.txns) <==> AnyWriter(a.ledger)
    ensures forall id :: CanWrite(s, id) <==> Writing(a, id)
  {
    var l := a.ledger;
    forall id | id in s.txns.active
      ensures id in l.open && l.open[id] == StatusOf(s, id)
      ensures s.txns.active[id].phase.Running? <==> l.open[id].progress.Working?
    {}
    if Quiet(s.txns) {
      forall id | id in l.open ensures l.open[id].progress.Working? { assert id in s.txns.active; }
    }
    if AnyWriter(l) {
      var id :| id in l.open && l.open[id].write;
      assert id in s.txns.active && s.txns.active[id].write;
    }
    if HasWriter(s.txns) {
      var id :| id in s.txns.active && s.txns.active[id].write;
      assert id in l.open && l.open[id].write;
    }
  }

  /** How many records a transaction has to go. */
  lemma {:induction false} RecordsLeft(s: State, a: Copies, id: nat)
    requires Inv(s) && Refines(s, a) && id in s.txns.active
    ensures id in s.undos && id in a.ledger.open && a.ledger.open[id] == StatusOf(s, id)
    ensures s.txns.active[id].phase.Committing? ==> s.txns.active[id].phase.done <= |s.undos[id]|
  {
    assert TxnOk(s.txns, id);
    assert s.txns.active[id].phase.Committing? ==> IsWriter(s.txns, id) && WriterUndoOk(s, id);
  }

  /** A step is refused exactly if the ledger does not admit it. */
  lemma {:induction false} RefusedIff(s: State, a: Copies, step: Step)
    requires Inv(s) && Refines(s, a)
    ensures Apply(s, step).1.Refused? <==> !Admitted(a, step)
  {
    if step.CommitRecord? || step.CommitEnd? || step.RollbackRecord? || step.RollbackEnd? {
      RecordRefusedIff(s, a, step);
    } else {
      LedgerTells(s, a);
      if step.RenameEntry? && CanWrite(s, step.id) { WriterCopy(s, a, step.id); }
      if step.CloseReader? && step.id in s.txns.active { RecordsLeft(s, a, step.id); }
    }
  }

  lemma {:induction false} RecordRefusedIff(s: State, a: Copies, step: Step)
    requires Inv(s) && Refines(s, a)
    requires step.CommitRecord? || step.CommitEnd? || step.RollbackRecord? || step.RollbackEnd?
    ensures Apply(s, step).1.Refused? <==> !Admitted(a, step)
  {
    var id := step.id;
    if id in s.txns.active {
      RecordsLeft(s, a, id);
      var txn := s.txns.active[id];
      assert a.ledger.open[id] == Status(txn.write, ProgressOf(txn.phase), |Pending(txn, s.undos[id])|);
    }
  }

  lemma {:induction false} ReplyIsDue(s: State, a: Copies, step: Step)
    requires Inv(s) && Refines(s, a)
    ensures Apply(s, step).1 == Due(a, step)
  {
    RefusedIff(s, a, step);
    StepKeepsViews(s, a, step);
  }

  // ----- the ledger -----

  /** One transaction's status changes, the others' stay. */
  lemma {:induction false} LedgerChanged(s: State, s': State, id: nat, status: Status)
    requires s'.txns.active.Keys == s.txns.active.Keys + {id} && StatusOf(s', id) == status
    requires forall other :: other in s.txns.active && other != id ==> StatusOf(s', other) == StatusOf(s, other)
    ensures LedgerOf(s') == Ledger(s'.txns.lastTS, LedgerOf(s).open[id := status])
  {
    forall k | k in s'.txns.active && k != id ensures LedgerOf(s').open[k] == LedgerOf(s).open[k] {
      assert k in s.txns.active;
    }
    OneChanged(LedgerOf(s').open, LedgerOf(s).open, id, status);
  }

  lemma {:induction false} OneChanged(l: map<nat, Status>, m: map<nat, Status>, id: nat, status: Status)
    requires l.Keys == m.Keys + {id} && l[id] == status && forall k :: k in l && k != id ==> l[k] == m[k]
    ensures l == m[id := status]
  {
  }

  lemma {:induction false} LedgerClosed(s: State, id: nat)
    ensures LedgerOf(Left(s, id)) == Closed(LedgerOf(s), id)
  {
    var s' := Left(s, id);
    forall other | other in s'.txns.active ensures StatusOf(s', other) == StatusOf(s, other) {}
  }

  /** What a write adds to the undo records. */
  function Recorded(step: Step): nat {
    if step.RenameEntry? then 2 else 1
  }

  ghost predicate IsWrite(step: Step) {
    step.CreateEntry? || step.DropEntry? || step.AlterEntry? || step.RenameEntry?
  }

  lemma {:induction false} WriteRecords(s: State, step: Step)
    requires IsWrite(step) && Apply(s, step).1.Done?
    ensures var s' := Apply(s, step).0;
            && CanWrite(s, step.id) && s'.txns == s.txns && s'.undos.Keys == s.undos.Keys
            && |s'.undos[step.id]| == |s.undos[step.id]| + Recorded(step)
            && forall other :: other in s.undos && other != step.id ==> s'.undos[other] == s.undos[other]
  {
  }

  lemma {:induction false} WriteLedger(s: State, step: Step)
    requires Inv(s) && IsWrite(step) && Apply(s, step).1.Done?
    ensures LedgerOf(Apply(s, step).0) == LedgerAfter(LedgerOf(s), s.txns.lastID + 1, step)
  {
    var s', id := Apply(s, step).0, step.id;
    WriteRecords(s, step);
    WithMember(s.txns.active.Keys, id);
    LedgerChanged(s, s', id, StatusOf(s', id));
  }

  lemma {:induction false} StepLedger(s: State, a: Copies, step: Step)
    requires Inv(s) && Refines(s, a) && Apply(s, step).1.Done?
    ensures LedgerOf(Apply(s, step).0) == LedgerAfter(a.ledger, a.lastID + 1, step)
  {
    var s' := Apply(s, step).0;
    if IsWrite(step) {
      WriteLedger(s, step);
    } else if step.CloseReader? || step.CommitEnd? || step.RollbackEnd? {
      LedgerClosed(s, step.id);
    } else if step.NextOID? {
      forall id | id in s.txns.active ensures StatusOf(s', id) == StatusOf(s, id) {}
    } else if step.Begin? {
      BeginLedger(s, step.write);
    } else {
      PhaseLedger(s, a, step);
    }
  }

  lemma {:induction false} BeginLedger(s: State, write: bool)
    requires Inv(s) && Apply(s, Begin(write)).1.Done?
    ensures LedgerOf(Apply(s, Begin(write)).0) == LedgerAfter(LedgerOf(s), s.txns.lastID + 1, Begin(write))
  {
    var s', me := Apply(s, Begin(write)).0, s.txns.lastID + 1;
    assert me in s.txns.active ==> TxnOk(s.txns, me);
    assert StatusOf(s', me) == Status(write, Working, 0);
    LedgerChanged(s, s', me, Status(write, Working, 0));
  }

  ghost predicate IsPhase(step: Step) {
    step.CommitBegin? || step.CommitRecord? || step.RollbackBegin? || step.RollbackRecord?
  }

  lemma {:induction false} StatusMoved(s: State, s': State, id: nat, progress: Progress, more: int)
    requires id in s.txns.active && s'.txns.active.Keys == s.txns.active.Keys && StatusOf(s, id).records + more >= 0
    requires StatusOf(s', id) == Status(StatusOf(s, id).write, progress, StatusOf(s, id).records + more)
    requires forall other :: other in s.txns.active && other != id ==> StatusOf(s', other) == StatusOf(s, other)
    ensures LedgerOf(s') == WithStatus(LedgerOf(s), id, progress, more).(lastTS := s'.txns.lastTS)
  {
    WithMember(s.txns.active.Keys, id);
    LedgerChanged(s, s', id, StatusOf(s', id));
    StatusListed(s, id);
    StatusReplaced(LedgerOf(s), id, progress, more, StatusOf(s', id));
  }

  lemma {:induction false} WithMember(ids: set<nat>, id: nat)
    requires id in ids
    ensures ids + {id} == ids
  {
  }

  lemma {:induction false} StatusListed(s: State, id: nat)
    requires id in s.txns.active
    ensures id in LedgerOf(s).open && LedgerOf(s).open[id] == StatusOf(s, id)
  {
  }

  lemma {:induction false} StatusReplaced(l: Ledger, id: nat, progress: Progress, more: int, status: Status)
    requires id in l.open && l.open[id].records + more >= 0
    requires status == Status(l.open[id].write, progress, l.open[id].records + more)
    ensures WithStatus(l, id, progress, more) == Ledger(l.lastTS, l.open[id := status])
  {
  }

  lemma {:induction false} PhaseLedger(s: State, a: Copies, step: Step)
    requires Inv(s) && Refines(s, a) && IsPhase(step) && Apply(s, step).1.Done?
    ensures LedgerOf(Apply(s, step).0) == LedgerAfter(a.ledger, a.lastID + 1, step)
  {
    RecordsLeft(s, a, step.id);
    match step
    case CommitBegin(id) => CommitBeginLedger(s, id);
    case CommitRecord(id) => CommitRecordLedger(s, id);
    case RollbackBegin(id) => RollbackBeginLedger(s, id);
    case RollbackRecord(id) => RollbackRecordLedger(s, id);
  }

  lemma {:induction false} CommitBeginLedger(s: State, id: nat)
    requires Apply(s, CommitBegin(id)).1.Done?
    ensures LedgerOf(Apply(s, CommitBegin(id)).0) ==
            WithStatus(LedgerOf(s), id, Publishing, 0).(lastTS := s.txns.lastTS + 1)
  {
    StatusMoved(s, Apply(s, CommitBegin(id)).0, id, Publishing, 0);
  }

  lemma {:induction false} CommitRecordLedger(s: State, id: nat)
    requires Apply(s, CommitRecord(id)).1.Done?
    ensures LedgerOf(Apply(s, CommitRecord(id)).0) == WithStatus(LedgerOf(s), id, Publishing, -1)
  {
    StatusMoved(s, Apply(s, CommitRecord(id)).0, id, Publishing, -1);
  }

  lemma {:induction false} RollbackBeginLedger(s: State, id: nat)
    requires Apply(s, RollbackBegin(id)).1.Done?
    ensures LedgerOf(Apply(s, RollbackBegin(id)).0) == WithStatus(LedgerOf(s), id, Undoing, 0)
  {
    StatusMoved(s, Apply(s, RollbackBegin(id)).0, id, Undoing, 0);
  }

  lemma {:induction false} RollbackRecordLedger(s: State, id: nat)
    requires Apply(s, RollbackRecord(id)).1.Done?
    ensures LedgerOf(Apply(s, RollbackRecord(id)).0) == WithStatus(LedgerOf(s), id, Undoing, -1)
  {
    StatusMoved(s, Apply(s, RollbackRecord(id)).0, id, Undoing, -1);
  }

  lemma {:induction false} UnchangedLedger(s: State, step: Step)
    requires !Apply(s, step).1.Done?
    ensures LedgerOf(Apply(s, step).0) == LedgerOf(s)
  {
    var s' := Apply(s, step).0;
    assert s'.txns == s.txns && s'.undos == s.undos;
    forall id | id in s.txns.active ensures StatusOf(s', id) == StatusOf(s, id) {}
  }

  lemma {:induction false} LedgerFollows(s: State, a: Copies, step: Step)
    requires Inv(s) && Refines(s, a) && Apply(s, step).1 == Due(a, step)
    ensures LedgerOf(Apply(s, step).0) == ApplyCopies(a, step).ledger
  {
    if Due(a, step).Done? { StepLedger(s, a, step); } else { UnchangedLedger(s, step); }
    UpdatedLedger(a, step, Due(a, step));
  }

  lemma {:induction false} UpdatedLedger(a: Copies, step: Step, reply: Reply)
    ensures Updated(a, step, reply).ledger == a.ledger
  {
  }

  lemma {:induction false} ViewsOnly(s: State, a: Copies, l: Ledger)
    requires SameViews(s, a)
    ensures SameViews(s, a.(ledger := l))
  {
    var a' := a.(ledger := l);
    forall id | id in a'.views ensures SeesCopy(s.txns, s.entries, id, a'.views[id]) {
      assert SeesCopy(s.txns, s.entries, id, a.views[id]);
    }
  }

  lemma {:induction false} ViewsFollow(s: State, a: Copies, step: Step)
    requires StepOk(s, a, step) && Apply(s, step).1 == Due(a, step)
    ensures Inv(Apply(s, step).0) && SameViews(Apply(s, step).0, ApplyCopies(a, step))
  {
    ViewsOnly(Apply(s, step).0, Updated(a, step, Due(a, step)), LedgerAfter(a.ledger, a.lastID + 1, step));
  }

  /** One step of the chains is one step of the copies, with the reply that is due. */
  lemma {:induction false} StepRefines(s: State, a: Copies, step: Step)
    requires Inv(s) && Refines(s, a)
    ensures var (s', reply) := Apply(s, step);
            reply == Due(a, step) && Inv(s') && Refines(s', ApplyCopies(a, step))
  {
    ReplyIsDue(s, a, step);
    StepKeepsViews(s, a, step);
    LedgerFollows(s, a, step);
    ViewsFollow(s, a, step);
  }
}
