/** Version chains of a catalog set: the entries of one name, oldest first, and what a
    transaction sees of them. */
module CatalogVersions {

  /** First value of the transaction id space; commit timestamps stay below it. */
  const START_TRANSACTION_ID: nat := 0x8000_0000_0000_0000

  datatype Option<+T> = None | Some(value: T)

  /** What a catalog entry is about, apart from its place in a chain. */
  datatype Item = Item(oid: nat, builtin: bool, content: string)

  /** One entry of a chain. A deleted version is a dummy or a tombstone. */
  datatype Version = Version(timestamp: nat, deleted: bool, item: Item)

  type Chain = seq<Version>
  type Entries = map<string, Chain>
  type View = map<string, Item>

  /** The two fields of a transaction that reads depend on. */
  datatype Reader = Reader(id: nat, startTS: nat)

  predicate Sees(t: Reader, v: Version) {
    v.timestamp == t.id || v.timestamp <= t.startTS
  }

  /** The newest version seen by `t`, walking from the newest version to older ones. */
  function Traverse(t: Reader, c: Chain): Option<Version> {
    if c == [] then None
    else if Sees(t, c[|c| - 1]) then Some(c[|c| - 1])
    else Traverse(t, c[..|c| - 1])
  }

  predicate Alive(t: Reader, c: Chain) {
    Traverse(t, c).Some? && !Traverse(t, c).value.deleted
  }

  predicate Contains(t: Reader, entries: Entries, name: string) {
    name in entries && Alive(t, entries[name])
  }

  /** Every entry `t` can see. */
  function Visible(t: Reader, entries: Entries): View {
    map name | name in entries && Alive(t, entries[name]) :: Traverse(t, entries[name]).value.item
  }

  /** What `t` sees under one name. */
  function Seen(t: Reader, entries: Entries, name: string): Option<Item> {
    if Contains(t, entries, name) then Some(Traverse(t, entries[name]).value.item) else None
  }

  /** A view gathered from all names but those in `rest`. */
  ghost predicate Gathered(t: Reader, entries: Entries, rest: set<string>, view: View) {
    && view.Keys !! rest
    && forall n {:trigger Seen(t, entries, n)} ::
         n !in rest ==> Seen(t, entries, n) == if n in view then Some(view[n]) else None
  }

  lemma {:induction false} GatherNone(t: Reader, entries: Entries)
    ensures Gathered(t, entries, entries.Keys, map[])
  {
  }

  lemma {:induction false} GatherOne(t: Reader, entries: Entries, rest: set<string>, view: View, n: string)
    requires Gathered(t, entries, rest, view) && n in rest
    ensures var r := Seen(t, entries, n);
            Gathered(t, entries, rest - {n}, if r.Some? then view[n := r.value] else view)
  {
  }

  lemma {:induction false} GatheredAll(t: Reader, entries: Entries, view: View)
    requires Gathered(t, entries, {}, view)
    ensures view == Visible(t, entries)
  {
    forall n ensures n in view <==> n in Visible(t, entries) { var _ := Seen(t, entries, n); }
    forall n | n in view ensures view[n] == Visible(t, entries)[n] { var _ := Seen(t, entries, n); }
  }

  /** The newest version with a commit timestamp. */
  function Committed(c: Chain): Option<Version> {
    if c == [] then None
    else if c[|c| - 1].timestamp < START_TRANSACTION_ID then Some(c[|c| - 1])
    else Committed(c[..|c| - 1])
  }

  /** Puts a version on top of the chain of `name`. */
  function Emplace(entries: Entries, name: string, v: Version): Entries {
    entries[name := (if name in entries then entries[name] else []) + [v]]
  }

  /** A chain or its versions without position `at`. */
  function Without<T>(s: seq<T>, at: nat): seq<T>
    requires at < |s|
  {
    s[..at] + s[at + 1..]
  }

  function Dummy(oid: nat): Version {
    Version(0, true, Item(oid, false, ""))
  }

  /** An entry written by another transaction, or committed after `t` started. */
  predicate Conflicts(t: Reader, v: Version) {
    || (v.timestamp >= START_TRANSACTION_ID && v.timestamp != t.id)
    || (v.timestamp < START_TRANSACTION_ID && v.timestamp > t.startTS)
  }

  datatype Error = AlreadyExists | DoesNotExist | WriteConflict

  /** An undo record names the entry whose `next` is the version to commit or roll back:
      the entry at position `below` of the chain of `name`. */
  datatype Undo = Undo(name: string, below: nat)

  datatype Outcome = Outcome(entries: Entries, undo: seq<Undo>, error: Option<Error>)

  function Fail(entries: Entries, error: Error): Outcome {
    Outcome(entries, [], Some(error))
  }

  /** Why an entry cannot be created. */
  function CreateError(t: Reader, entries: Entries, name: string): Option<Error> {
    var chain := if name in entries then entries[name] else [];
    if Contains(t, entries, name) then Some(AlreadyExists)
    else if chain != [] && Conflicts(t, chain[|chain| - 1]) then Some(WriteConflict)
    else if chain != [] && !chain[|chain| - 1].deleted then Some(AlreadyExists)
    else None
  }

  /** A name without a chain first gets a dummy that nobody can miss. */
  function Based(entries: Entries, name: string, oid: nat): Entries {
    if name in entries && entries[name] != [] then entries else entries[name := [Dummy(oid)]]
  }

  function Create(t: Reader, entries: Entries, name: string, item: Item): Outcome {
    var error := CreateError(t, entries, name);
    if error.Some? then Fail(entries, error.value)
    else
      var based := Based(entries, name, item.oid);
      Outcome(Emplace(based, name, Version(t.id, false, item)), [Undo(name, |based[name]| - 1)], None)
  }

  function Tombstone(t: Reader, oid: nat): Version {
    Version(t.id, true, Item(oid, false, ""))
  }

  /** Dropping an entry puts a tombstone, with the object id the caller passes, on its chain. */
  function Drop(t: Reader, entries: Entries, name: string, oid: nat): Outcome {
    if !Contains(t, entries, name) then Fail(entries, DoesNotExist)
    else
      Outcome(Emplace(entries, name, Tombstone(t, oid)),
              [Undo(name, |entries[name]| - 1)], None)
  }

  /** Altering in place puts a changed copy with the same object id on the chain. */
  function Alter(t: Reader, entries: Entries, name: string, content: string): Outcome {
    if !Contains(t, entries, name) then Fail(entries, DoesNotExist)
    else
      var item := Traverse(t, entries[name]).value.item;
      Outcome(Emplace(entries, name, Version(t.id, false, item.(content := content))),
              [Undo(name, |entries[name]| - 1)], None)
  }

  /** Renaming drops the old name and creates the new one. When the creation fails, the
      tombstone stays on the old name and no undo record is written for it. */
  function Rename(t: Reader, entries: Entries, name: string, newName: string): Outcome {
    if !Contains(t, entries, name) then Fail(entries, DoesNotExist)
    else
      var item := Traverse(t, entries[name]).value.item;
      var dropped := Drop(t, entries, name, item.oid);
      var created := Create(t, dropped.entries, newName, item);
      if created.error.Some? then Fail(dropped.entries, created.error.value)
      else Outcome(created.entries, dropped.undo + created.undo, None)
  }

  // ----- what one chain looks like to one reader -----

  /** A version the reader does not see changes nothing for it when put on top. */
  lemma {:induction false} TraversePush(t: Reader, c: Chain, v: Version)
    ensures Traverse(t, c + [v]) == if Sees(t, v) then Some(v) else Traverse(t, c)
  {
    assert (c + [v])[..|c|] == c;
  }

  /** Restamping a version from one timestamp the reader does not see to another changes
      nothing for the reader, wherever in the chain it sits. */
  lemma {:induction false} TraverseRestamp(t: Reader, c: Chain, i: nat, ts: nat)
    requires i < |c|
    requires !Sees(t, c[i]) && !Sees(t, c[i].(timestamp := ts))
    ensures Traverse(t, c[i := c[i].(timestamp := ts)]) == Traverse(t, c)
  {
    var d := c[i := c[i].(timestamp := ts)];
    var n := |c| - 1;
    if i == n {
      assert d[..n] == c[..n];
    } else if !Sees(t, c[n]) {
      assert d[..n] == c[..n][i := c[i].(timestamp := ts)];
      TraverseRestamp(t, c[..n], i, ts);
    }
  }

  /** Restamping a version between two timestamps the reader sees keeps the item it reads. */
  lemma {:induction false} TraverseRestampSeen(t: Reader, c: Chain, i: nat, ts: nat)
    requires i < |c|
    requires Sees(t, c[i]) && Sees(t, c[i].(timestamp := ts))
    ensures var d := c[i := c[i].(timestamp := ts)];
            && Traverse(t, c).Some? && Traverse(t, d).Some?
            && Traverse(t, d).value.deleted == Traverse(t, c).value.deleted
            && Traverse(t, d).value.item == Traverse(t, c).value.item
  {
    var d := c[i := c[i].(timestamp := ts)];
    var n := |c| - 1;
    if i < n && !Sees(t, c[n]) {
      assert d[..n] == c[..n][i := c[i].(timestamp := ts)];
      TraverseRestampSeen(t, c[..n], i, ts);
    }
  }

  /** A chain whose oldest version is seen by the reader always yields a version, the newest
      one the reader sees: the unguarded dereference of the walk's result is safe. */
  lemma {:induction false} TraverseFindsNewest(t: Reader, c: Chain)
    requires c != [] && Sees(t, c[0])
    ensures Traverse(t, c).Some?
    ensures exists i :: 0 <= i < |c| && Traverse(t, c).value == c[i] && Sees(t, c[i])
                        && forall j :: i < j < |c| ==> !Sees(t, c[j])
  {
    var n := |c| - 1;
    if !Sees(t, c[n]) {
      TraverseFindsNewest(t, c[..n]);
      var i :| 0 <= i < |c[..n]| && Traverse(t, c[..n]).value == c[..n][i] && Sees(t, c[..n][i])
               && forall j :: i < j < |c[..n]| ==> !Sees(t, c[..n][j]);
      assert forall j :: i < j < |c| ==> !Sees(t, c[j]);
    }
  }

  /** The walk for commit timestamps agrees with a reader that starts after every commit. */
  lemma {:induction false} CommittedIsLatest(t: Reader, c: Chain)
    requires t.id >= START_TRANSACTION_ID && t.startTS < START_TRANSACTION_ID
    requires forall i :: 0 <= i < |c| ==>
      c[i].timestamp != t.id && (c[i].timestamp <= t.startTS || c[i].timestamp >= START_TRANSACTION_ID)
    ensures Committed(c) == Traverse(t, c)
  {
    if c != [] { CommittedIsLatest(t, c[..|c| - 1]); }
  }
}
