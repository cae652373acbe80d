/** The catalog set as it is built: entries linked to the previous and next version, and a map
    from names to the newest version. Every method is tied to the version chains. */
module CatalogSets {
  import opened CatalogVersions
  import opened CatalogMachine
  import opened CatalogTheorems

  class CatalogEntry {
    const name: string
    var timestamp: nat
    var deleted: bool
    var item: Item
    var prev: CatalogEntry?
    var next: CatalogEntry?

    constructor (name: string, v: Version)
      ensures this.name == name && Value() == v && prev == null && next == null
    {
      this.name, this.timestamp, this.deleted, this.item := name, v.timestamp, v.deleted, v.item;
      this.prev, this.next := null, null;
    }

    function Value(): Version
      reads this
    {
      Version(timestamp, deleted, item)
    }

    /** Takes the entry above this one out of the chain. */
    method UnlinkNext(ghost c: seq<CatalogEntry>, ghost versions: Chain, ghost at: nat) returns (newer: CatalogEntry?)
      requires LinkedChain(c, versions) && Distinct(c) && at + 1 < |c| && c[at] == this
      modifies c
      ensures LinkedChain(Without(c, at + 1), Without(versions, at + 1))
      ensures newer == if at + 2 < |c| then c[at + 2] else null
    {
      assert Linked(c, versions, at) && Linked(c, versions, at + 1);
      var gone := next;
      newer := gone.next;
      gone.prev := null;
      next := newer;
      if newer != null { newer.prev := this; }
      ghost var c', versions' := Without(c, at + 1), Without(versions, at + 1);
      forall i | 0 <= i < |c'| ensures Linked(c', versions', i) {
        ghost var j := if i <= at then i else i + 1;
        assert c'[i] == c[j] && old(Linked(c, versions, j));
        assert Apart(c, j, at) && Apart(c, j, at + 1) && (at + 2 < |c| ==> Apart(c, j, at + 2));
      }
    }

    /** Links this entry above the top of a chain. */
    method SetPrev(top: CatalogEntry, ghost c: seq<CatalogEntry>, ghost versions: Chain)
      requires LinkedChain(c, versions) && Distinct(c) && c != [] && c[|c| - 1] == top
      requires this !in c && next == null
      modifies this, top
      ensures Value() == old(Value()) && LinkedChain(c + [this], versions + [Value()])
    {
      assert Linked(c, versions, |c| - 1);
      prev := top;
      top.next := this;
      ghost var c', versions' := c + [this], versions + [Value()];
      forall i | 0 <= i < |c'| ensures Linked(c', versions', i) {
        if i < |c| { assert old(Linked(c, versions, i)) && Apart(c, i, |c| - 1); }
      }
    }
  }

  const INTERNAL_START_OID: nat := 0x8000_0000_0000_0000

  class CatalogSet {
    var entries: map<string, CatalogEntry>
    var nextOID: nat
    /** The entries of each name, oldest first, and the version chains they stand for. */
    ghost var chains: map<string, seq<CatalogEntry>>
    ghost var model: Entries

    ghost function Nodes(): set<CatalogEntry>
      reads this`chains
    {
      NodesOf(chains)
    }

    ghost predicate Valid()
      reads this`entries, this`chains, this`model, Nodes()
    {
      && Shaped(entries, chains, model)
      && forall n {:trigger LinkedChain(chains[n], model[n])} :: n in chains ==> LinkedChain(chains[n], model[n])
    }

    constructor (isInternal: bool)
      ensures Valid() && model == map[] && nextOID == (if isInternal then INTERNAL_START_OID else 0)
    {
      entries, nextOID, chains, model := map[], if isInternal then INTERNAL_START_OID else 0, map[], map[];
    }

    /** Walks from the newest entry to older ones until one is seen. */
    method TraverseVersionChain(t: Reader, name: string) returns (entry: CatalogEntry?)
      requires Valid() && name in entries
      ensures entry == null <==> Traverse(t, model[name]).None?
      ensures entry != null ==> Traverse(t, model[name]) == Some(entry.Value())
    {
      entry := entries[name];
      ghost var c := model[name];
      assert ChainShaped(name, entry, chains[name], c);
      ghost var k := |c| - 1;
      assert c[..k + 1] == c;
      while entry != null
        invariant -1 <= k < |c|
        invariant entry == if k < 0 then null else chains[name][k]
        invariant Traverse(t, c) == Traverse(t, c[..k + 1])
        decreases k
      {
        assert LinkedChain(chains[name], model[name]) && Linked(chains[name], model[name], k);
        assert c[..k + 1][..k] == c[..k];
        if entry.timestamp == t.id || entry.timestamp <= t.startTS { return; }
        entry := entry.prev;
        k := k - 1;
      }
    }

    /** The same walk for the newest entry with a commit timestamp. */
    method GetCommittedEntry(name: string) returns (entry: CatalogEntry?)
      requires Valid() && name in entries
      ensures entry == null <==> Committed(model[name]).None?
      ensures entry != null ==> Committed(model[name]) == Some(entry.Value())
    {
      entry := entries[name];
      ghost var c := model[name];
      assert ChainShaped(name, entry, chains[name], c);
      ghost var k := |c| - 1;
      assert c[..k + 1] == c;
      while entry != null
        invariant -1 <= k < |c|
        invariant entry == if k < 0 then null else chains[name][k]
        invariant Committed(c) == Committed(c[..k + 1])
        decreases k
      {
        assert LinkedChain(chains[name], model[name]) && Linked(chains[name], model[name], k);
        assert c[..k + 1][..k] == c[..k];
        if entry.timestamp < START_TRANSACTION_ID { return; }
        entry := entry.prev;
        k := k - 1;
      }
    }

    method ContainsEntry(t: Reader, name: string) returns (found: bool)
      requires Valid() && Readable(t, model)
      ensures found == Contains(t, model, name)
    {
      if name !in entries { return false; }
      var entry := TraverseVersionChain(t, name);
      found := !entry.deleted;
    }

    /** The entry the reader sees under a name, if there is one that is not deleted. */
    method GetEntry(t: Reader, name: string) returns (r: Option<Item>)
      requires Valid() && Readable(t, model)
      ensures r == Seen(t, model, name)
    {
      if name !in entries { return None; }
      var entry := TraverseVersionChain(t, name);
      r := if entry.deleted then None else Some(entry.item);
    }

    /** Everything the reader sees, gathered name by name. */
    method GetEntries(t: Reader) returns (view: View)
      requires Valid() && Readable(t, model)
      ensures view == Visible(t, model)
    {
      view := map[];
      var names := entries.Keys;
      GatherNone(t, model);
      while names != {}
        invariant Gathered(t, model, names, view)
        decreases names
      {
        var n :| n in names;
        var r := GetEntry(t, n);
        GatherOne(t, model, names, view, n);
        if r.Some? { view := view[n := r.value]; }
        names := names - {n};
      }
      GatheredAll(t, model, view);
    }

    /** Searches the names, in no particular order, for one whose newest version has the id. */
    method GetEntryOfOID(t: Reader, oid: nat) returns (answer: Option<string>)
      requires Valid() && Readable(t, model)
      ensures OidAnswer(t, model, oid, answer)
    {
      var names := entries.Keys;
      while names != {}
        invariant names <= entries.Keys
        invariant forall n :: n !in names && Contains(t, model, n) ==> TopOid(model[n]) != oid
        decreases names
      {
        var n :| n in names;
        assert ChainShaped(n, entries[n], chains[n], model[n]) && LinkedChain(chains[n], model[n]) &&
               Linked(chains[n], model[n], |model[n]| - 1);
        if entries[n].item.oid == oid {
          var entry := TraverseVersionChain(t, n);
          if !entry.deleted { return Some(n); }
        }
        names := names - {n};
      }
      answer := None;
    }

    // ----- writes -----

    /** Puts an entry that is in no chain on top of the chain of its name. */
    method EmplaceNoLock(entry: CatalogEntry)
      requires Valid() && entry !in Nodes() && entry.prev == null && entry.next == null
      modifies this, entry, if entry.name in entries then {entries[entry.name]} else {}
      ensures Valid() && model == Emplace(old(model), entry.name, old(entry.Value()))
      ensures chains == OnTop(old(chains), entry.name, entry)
      ensures Nodes() == old(Nodes()) + {entry} && nextOID == old(nextOID)
    {
      ShapedOnTop(entries, chains, model, entry, entry.Value());
      if entry.name in entries {
        Link(entry, entries[entry.name]);
      } else {
        chains := OnTop(chains, entry.name, entry);
        model := Emplace(model, entry.name, entry.Value());
        entries := entries[entry.name := entry];
        assert LinkedChain([entry], [entry.Value()]);
        forall n | n in chains && n != entry.name ensures LinkedChain(chains[n], model[n]) {
          assert old(LinkedChain(chains[n], model[n]));
        }
      }
    }

    /** Links an entry above the top of its chain, and makes it the top. */
    method Link(entry: CatalogEntry, top: CatalogEntry)
      requires Valid() && entry !in Nodes() && entry.prev == null && entry.next == null
      requires entry.name in entries && entries[entry.name] == top
      requires Shaped(entries[entry.name := entry], OnTop(chains, entry.name, entry),
                      OnTop(model, entry.name, entry.Value()))
      modifies this, entry, top
      ensures Valid() && model == Emplace(old(model), entry.name, old(entry.Value()))
      ensures chains == OnTop(old(chains), entry.name, entry) && nextOID == old(nextOID)
    {
      var name := entry.name;
      ghost var c, vs := chains[name], model[name];
      assert ChainShaped(name, top, c, vs) && LinkedChain(c, vs) && Named(c, name, |c| - 1);
      assert forall i :: 0 <= i < |c| ==> c[i] in Nodes();
      OthersApart(entries, chains, model, name, top);
      OthersApart(entries, chains, model, name, entry);
      entry.SetPrev(top, c, vs);
      chains := OnTop(chains, name, entry);
      model := Emplace(model, name, entry.Value());
      entries := entries[name := entry];
      forall n | n in chains && n != name ensures LinkedChain(chains[n], model[n]) {
        assert old(LinkedChain(chains[n], model[n]));
      }
    }

    /** Puts a new version on an existing chain and returns the entry below it. */
    method Put(name: string, v: Version) returns (below: CatalogEntry)
      requires Valid() && name in entries
      modifies this, entries[name]
      ensures Valid() && fresh(Nodes() - old(Nodes())) && nextOID == old(nextOID) && Grown(old(chains), chains)
      ensures model == Emplace(old(model), name, v)
      ensures |old(model)[name]| > 0 && Points(chains, below, Undo(name, |old(model)[name]| - 1))
    {
      below := entries[name];
      assert ChainShaped(name, below, chains[name], model[name]);
      var entry := new CatalogEntry(name, v);
      EmplaceNoLock(entry);
      GrownOnTop(old(chains), name, entry);
    }

    /** The three reasons for which creating an entry fails. */
    method CheckCreate(t: Reader, name: string) returns (error: Option<Error>)
      requires Valid() && Readable(t, model)
      ensures error == CreateError(t, model, name)
    {
      var found := ContainsEntry(t, name);
      if found { return Some(AlreadyExists); }
      if name in entries {
        var top := entries[name];
        assert ChainShaped(name, top, chains[name], model[name]) && LinkedChain(chains[name], model[name])
               && Linked(chains[name], model[name], |chains[name]| - 1);
        if || (top.timestamp >= START_TRANSACTION_ID && top.timestamp != t.id)
           || (top.timestamp < START_TRANSACTION_ID && top.timestamp > t.startTS)
        {
          return Some(WriteConflict);
        }
        if !top.deleted { return Some(AlreadyExists); }
      }
      error := None;
    }

    /** Returns the entry below the new one, which is what the undo buffer records. */
    method CreateEntryNoLock(t: Reader, name: string, item: Item) returns (below: CatalogEntry?, error: Option<Error>)
      requires Valid() && Readable(t, model)
      modifies this, Nodes()
      ensures Valid() && fresh(Nodes() - old(Nodes())) && nextOID == old(nextOID) && Grown(old(chains), chains)
      ensures var o := Create(t, old(model), name, item);
              && model == o.entries && error == o.error
              && (error.None? ==> |o.undo| == 1 && Points(chains, below, o.undo[0]))
    {
      error := CheckCreate(t, name);
      if error.Some? { return null, error; }
      EnsureChain(name, item.oid);
      ghost var based := chains;
      TopInNodes(entries, chains, model, name);
      below := Put(name, Version(t.id, false, item));
      GrownTransitive(old(chains), based, chains);
    }

    /** Gives a name without a chain a chain that holds a dummy. */
    method EnsureChain(name: string, oid: nat)
      requires Valid()
      modifies this
      ensures Valid() && fresh(Nodes() - old(Nodes())) && nextOID == old(nextOID) && Grown(old(chains), chains)
      ensures name in entries && model == Based(old(model), name, oid)
    {
      if name in entries {
        assert ChainShaped(name, entries[name], chains[name], model[name]);
      } else {
        var dummy := new CatalogEntry(name, Dummy(oid));
        EmplaceNoLock(dummy);
        GrownOnTop(old(chains), name, dummy);
        assert [] + [Dummy(oid)] == [Dummy(oid)];
      }
    }

    method CreateEntry(t: Reader, name: string, builtin: bool, content: string)
      returns (below: CatalogEntry?, error: Option<Error>)
      requires Valid() && Readable(t, model)
      modifies this, Nodes()
      ensures Valid() && fresh(Nodes() - old(Nodes())) && nextOID == old(nextOID) + 1 && Grown(old(chains), chains)
      ensures var o := Create(t, old(model), name, Item(old(nextOID), builtin, content));
              && model == o.entries && error == o.error
              && (error.None? ==> |o.undo| == 1 && Points(chains, below, o.undo[0]))
    {
      below, error := CreateEntryNoLock(t, name, Item(nextOID, builtin, content));
      nextOID := nextOID + 1;
    }

    method DropEntryNoLock(t: Reader, name: string, oid: nat) returns (below: CatalogEntry?, error: Option<Error>)
      requires Valid() && Readable(t, model)
      modifies this, Nodes()
      ensures Valid() && fresh(Nodes() - old(Nodes())) && nextOID == old(nextOID) && Grown(old(chains), chains)
      ensures var o := Drop(t, old(model), name, oid);
              && model == o.entries && error == o.error
              && (error.None? ==> |o.undo| == 1 && Points(chains, below, o.undo[0]))
    {
      var found := ContainsEntry(t, name);
      if !found { return null, Some(DoesNotExist); }
      TopInNodes(entries, chains, model, name);
      below := Put(name, Version(t.id, true, Item(oid, false, "")));
      error := None;
    }

    /** Altering without renaming. */
    method AlterTableEntry(t: Reader, name: string, content: string)
      returns (below: CatalogEntry?, error: Option<Error>)
      requires Valid() && Readable(t, model)
      modifies this, Nodes()
      ensures Valid() && fresh(Nodes() - old(Nodes())) && nextOID == old(nextOID) && Grown(old(chains), chains)
      ensures var o := Alter(t, old(model), name, content);
              && model == o.entries && error == o.error
              && (error.None? ==> |o.undo| == 1 && Points(chains, below, o.undo[0]))
    {
      var r := GetEntry(t, name);
      if r.None? { return null, Some(DoesNotExist); }
      TopInNodes(entries, chains, model, name);
      below := Put(name, Version(t.id, false, r.value.(content := content)));
      error := None;
    }

    method DropThenCreate(t: Reader, name: string, newName: string, item: Item)
      returns (dropped: CatalogEntry?, created: CatalogEntry?, error: Option<Error>)
      requires Valid() && Readable(t, model) && Contains(t, model, name)
      modifies this, Nodes()
      ensures Valid() && fresh(Nodes() - old(Nodes())) && nextOID == old(nextOID)
      ensures var tombstoned := Emplace(old(model), name, Tombstone(t, item.oid));
              var o := Create(t, tombstoned, newName, item);
              && model == o.entries && error == o.error
              && Points(chains, dropped, Undo(name, |old(model)[name]| - 1))
              && (error.None? ==> |o.undo| == 1 && Points(chains, created, o.undo[0]))
    {
      ghost var r := Undo(name, |model[name]| - 1);
      dropped, error := DropEntryNoLock(t, name, item.oid);
      assert model == Emplace(old(model), name, Tombstone(t, item.oid));
      ghost var between := chains;
      assert Points(between, dropped, r);
      StillReadable(t, old(model), name, Tombstone(t, item.oid));
      created, error := CreateEntryNoLock(t, newName, item);
      PointsGrown(between, chains, dropped, r);
    }

    /** Renaming: a drop, then a creation under the new name with the old object id. */
    method RenameTableEntry(t: Reader, name: string, newName: string)
      returns (dropped: CatalogEntry?, created: CatalogEntry?, error: Option<Error>)
      requires Valid() && Readable(t, model)
      modifies this, Nodes()
      ensures Valid() && fresh(Nodes() - old(Nodes())) && nextOID == old(nextOID)
      ensures var o := Rename(t, old(model), name, newName);
              && model == o.entries && error == o.error
              && (error.None? ==>
                    |o.undo| == 2 && Points(chains, dropped, o.undo[0]) && Points(chains, created, o.undo[1]))
    {
      var r := GetEntry(t, name);
      if r.None? { return null, null, Some(DoesNotExist); }
      RenameParts(t, model, name, newName);
      dropped, created, error := DropThenCreate(t, name, newName, r.value);
    }

    // ----- what the undo buffer does with a recorded entry -----

    /** Commit stamps the entry above the recorded one. */
    method CommitRecord(entry: CatalogEntry, commitTS: nat, ghost r: Undo)
      requires Valid() && Points(chains, entry, r) && Resolves(model, r)
      modifies this, Nodes()
      ensures Valid() && chains == old(chains) && nextOID == old(nextOID)
      ensures model == CatalogMachine.Restamp(old(model), r, commitTS)
    {
      ghost var c, vs := chains[r.name], model[r.name];
      assert ChainShaped(r.name, entries[r.name], c, vs) && LinkedChain(c, vs) && Linked(c, vs, r.below);
      var newer := entry.next;
      assert newer == c[r.below + 1] && newer in Nodes() && Named(c, r.name, r.below + 1);
      newer.timestamp := commitTS;
      model := CatalogMachine.Restamp(model, r, commitTS);
      forall n | n in chains ensures ChainShaped(n, entries[n], chains[n], model[n]) {
        assert ChainShaped(n, entries[n], chains[n], old(model)[n]);
      }
      forall i | 0 <= i < |c| ensures Linked(c, model[r.name], i) {
        assert old(Linked(c, vs, i)) && Apart(c, i, r.below + 1);
      }
      forall n | n in chains && n != r.name ensures LinkedChain(chains[n], model[n]) {
        NotInOther(n, entries[n], chains[n], model[n], newer);
        assert old(LinkedChain(chains[n], model[n]));
      }
    }

    method UnlinkAbove(entry: CatalogEntry, ghost r: Undo) returns (newer: CatalogEntry?)
      requires Valid() && Points(chains, entry, r) && r.below + 1 < |chains[r.name]|
      modifies chains[r.name]
      ensures |model[r.name]| == |chains[r.name]|
      ensures LinkedChain(Without(chains[r.name], r.below + 1), Without(model[r.name], r.below + 1))
      ensures forall n {:trigger LinkedChain(chains[n], model[n])} ::
                n in chains && n != r.name ==> LinkedChain(chains[n], model[n])
      ensures newer == if r.below + 2 < |chains[r.name]| then chains[r.name][r.below + 2] else null
    {
      ghost var c, vs := chains[r.name], model[r.name];
      assert ChainShaped(r.name, entries[r.name], c, vs) && LinkedChain(c, vs);
      newer := entry.UnlinkNext(c, vs, r.below);
      forall n | n in chains && n != r.name ensures LinkedChain(chains[n], model[n]) {
        assert ChainShaped(n, entries[n], chains[n], model[n]) && old(LinkedChain(chains[n], model[n]));
        forall i | 0 <= i < |chains[n]| ensures Linked(chains[n], model[n], i) {
          assert Named(chains[n], n, i) && old(Linked(chains[n], model[n], i));
          NotInOther(r.name, entries[r.name], c, vs, chains[n][i]);
        }
      }
    }

    /** Rollback takes the entry above the recorded one out of its chain; when that entry was the
        newest, the recorded one becomes the newest again. */
    method RollbackRecord(entry: CatalogEntry, ghost r: Undo)
      requires Valid() && Points(chains, entry, r) && Resolves(model, r)
      modifies this, chains[r.name]
      ensures Valid() && nextOID == old(nextOID)
      ensures model == CatalogMachine.Unlink(old(model), r)
    {
      assert ChainShaped(r.name, entries[r.name], chains[r.name], model[r.name]) &&
             Named(chains[r.name], r.name, r.below);
      ShapedWithout(entries, chains, model, r.name, r.below + 1,
                    if r.below + 2 == |chains[r.name]| then entry else entries[r.name]);
      var newer := UnlinkAbove(entry, r);
      var entries' := if newer == null then entries[entry.name := entry] else entries;
      assert newer != null ==> entries[r.name := entries[r.name]] == entries;
      Install(entries', chains[r.name := Without(chains[r.name], r.below + 1)], CatalogMachine.Unlink(model, r));
    }

    method Install(entries': map<string, CatalogEntry>, ghost chains': map<string, seq<CatalogEntry>>,
                   ghost model': Entries)
      requires Shaped(entries', chains', model')
      requires forall n {:trigger LinkedChain(chains'[n], model'[n])} :: n in chains' ==>
                 LinkedChain(chains'[n], model'[n])
      modifies this
      ensures Valid() && entries == entries' && chains == chains' && model == model' && nextOID == old(nextOID)
    {
      entries, chains, model := entries', chains', model';
      forall n | n in chains ensures LinkedChain(chains[n], model[n]) { assert LinkedChain(chains'[n], model'[n]); }
    }
  }

  lemma {:induction false} ShapedWithout(entries: map<string, CatalogEntry>, chains: map<string, seq<CatalogEntry>>,
                                         model: Entries,
                      name: string, at: nat, top: CatalogEntry)
    requires Shaped(entries, chains, model) && name in chains && 0 < at < |chains[name]|
    requires top == if at + 1 == |chains[name]| then chains[name][at - 1] else entries[name]
    ensures at < |model[name]| &&
            Shaped(entries[name := top], chains[name := Without(chains[name], at)],
                   model[name := Without(model[name], at)])
  {
    var c := chains[name];
    assert ChainShaped(name, entries[name], c, model[name]);
    var c' := Without(c, at);
    forall i, j | 0 <= i < |c'| && 0 <= j < |c'| ensures Apart(c', i, j) {
      assert Apart(c, if i < at then i else i + 1, if j < at then j else j + 1);
    }
    forall i | 0 <= i < |c'| ensures Named(c', name, i) { assert Named(c, name, if i < at then i else i + 1); }
    forall n | n in chains && n != name ensures ChainShaped(n, entries[n], chains[n], model[n]) {}
  }

  lemma {:induction false} StillReadable(t: Reader, entries: Entries, name: string, v: Version)
    requires Readable(t, entries) && name in entries
    ensures Readable(t, Emplace(entries, name, v))
  {
    TraversePush(t, entries[name], v);
  }

  /** The entry an undo record is about. */
  ghost predicate Points(chains: map<string, seq<CatalogEntry>>, entry: CatalogEntry?, r: Undo) {
    r.name in chains && r.below < |chains[r.name]| && chains[r.name][r.below] == entry
  }

  lemma {:induction false} PointsGrown(chains: map<string, seq<CatalogEntry>>, chains': map<string, seq<CatalogEntry>>,
                                       entry: CatalogEntry?, r: Undo)
    requires Points(chains, entry, r) && Grown(chains, chains')
    ensures Points(chains', entry, r)
  {
    assert GrownAt(chains, chains', r.name);
  }

  /** Entries are only ever put on top. */
  ghost predicate Grown(chains: map<string, seq<CatalogEntry>>, chains': map<string, seq<CatalogEntry>>) {
    forall n {:trigger GrownAt(chains, chains', n)} :: GrownAt(chains, chains', n)
  }

  ghost predicate GrownAt(chains: map<string, seq<CatalogEntry>>, chains': map<string, seq<CatalogEntry>>, n: string) {
    n in chains ==> n in chains' && chains[n] <= chains'[n]
  }

  lemma {:induction false} GrownOnTop(chains: map<string, seq<CatalogEntry>>, name: string, entry: CatalogEntry)
    ensures Grown(chains, OnTop(chains, name, entry))
  {
  }

  lemma {:induction false} GrownTransitive(c0: map<string, seq<CatalogEntry>>, c1: map<string, seq<CatalogEntry>>,
                                           c2: map<string, seq<CatalogEntry>>)
    requires Grown(c0, c1) && Grown(c1, c2)
    ensures Grown(c0, c2)
  {
    forall n ensures GrownAt(c0, c2, n) { assert GrownAt(c0, c1, n) && GrownAt(c1, c2, n); }
  }

  lemma {:induction false} TopInNodes(entries: map<string, CatalogEntry>, chains: map<string, seq<CatalogEntry>>,
                                      model: Entries, name: string)
    requires Shaped(entries, chains, model) && name in entries
    ensures entries[name] in NodesOf(chains)
  {
    assert ChainShaped(name, entries[name], chains[name], model[name]);
  }

  lemma {:induction false} RenameParts(t: Reader, entries: Entries, name: string, newName: string)
    requires Contains(t, entries, name)
    ensures entries[name] != []
    ensures var item := Traverse(t, entries[name]).value.item;
            var created := Create(t, Emplace(entries, name, Tombstone(t, item.oid)), newName, item);
            var o := Rename(t, entries, name, newName);
            && o.entries == created.entries && o.error == created.error
            && (o.error.None? ==>
                  |created.undo| == 1 && o.undo == [Undo(name, |entries[name]| - 1), created.undo[0]])
  {
  }

  ghost function NodesOf(chains: map<string, seq<CatalogEntry>>): set<CatalogEntry> {
    set n, i | n in chains && 0 <= i < |chains[n]| :: chains[n][i]
  }

  ghost predicate Apart(c: seq<CatalogEntry>, i: int, j: int)
    requires 0 <= i < |c| && 0 <= j < |c|
  {
    c[i] == c[j] ==> i == j
  }

  ghost predicate Distinct(c: seq<CatalogEntry>) {
    forall i, j {:trigger Apart(c, i, j)} :: 0 <= i < |c| && 0 <= j < |c| ==> Apart(c, i, j)
  }

  ghost predicate Named(c: seq<CatalogEntry>, name: string, i: int)
    requires 0 <= i < |c|
  {
    c[i].name == name
  }

  ghost predicate ChainShaped(name: string, entry: CatalogEntry, c: seq<CatalogEntry>, versions: Chain) {
    && c != [] && |c| == |versions| && entry == c[|c| - 1] && Distinct(c)
    && forall i {:trigger Named(c, name, i)} :: 0 <= i < |c| ==> Named(c, name, i)
  }

  lemma {:induction false} NotInOther(name: string, entry: CatalogEntry, c: seq<CatalogEntry>, versions: Chain,
                                      e: CatalogEntry)
    requires ChainShaped(name, entry, c, versions) && e.name != name
    ensures e !in c
  {
    forall i | 0 <= i < |c| ensures c[i] != e { assert Named(c, name, i); }
  }

  lemma {:induction false} OthersApart(entries: map<string, CatalogEntry>, chains: map<string, seq<CatalogEntry>>,
                                       model: Entries,
                                       name: string, e: CatalogEntry)
    requires Shaped(entries, chains, model) && e.name == name
    ensures forall n :: n in chains && n != name ==> e !in chains[n]
  {
    forall n | n in chains && n != name ensures e !in chains[n] {
      assert ChainShaped(n, entries[n], chains[n], model[n]);
      NotInOther(n, entries[n], chains[n], model[n], e);
    }
  }

  /** The entry at position `i` of a chain carries its version and is linked to its neighbours. */
  ghost predicate LinkedChain(c: seq<CatalogEntry>, versions: Chain)
    reads c
  {
    |c| == |versions| && forall i {:trigger Linked(c, versions, i)} :: 0 <= i < |c| ==> Linked(c, versions, i)
  }

  ghost predicate Linked(c: seq<CatalogEntry>, versions: Chain, i: int)
    requires 0 <= i < |c|
    reads c[i]
  {
    && i < |versions| && c[i].Value() == versions[i]
    && c[i].prev == (if i == 0 then null else c[i - 1])
    && c[i].next == (if i + 1 == |c| then null else c[i + 1])
  }

  /** The parts of validity that do not look into the entries. */
  ghost predicate Shaped(entries: map<string, CatalogEntry>, chains: map<string, seq<CatalogEntry>>, model: Entries) {
    && entries.Keys == chains.Keys == model.Keys
    && forall n {:trigger ChainShaped(n, entries[n], chains[n], model[n])} ::
         n in chains ==> ChainShaped(n, entries[n], chains[n], model[n])
  }

  function OnTop<T>(m: map<string, seq<T>>, name: string, x: T): map<string, seq<T>> {
    m[name := (if name in m then m[name] else []) + [x]]
  }

  lemma {:induction false} ShapedOnTop(entries: map<string, CatalogEntry>, chains: map<string, seq<CatalogEntry>>,
                                       model: Entries,
                    entry: CatalogEntry, v: Version)
    requires Shaped(entries, chains, model) && entry !in NodesOf(chains)
    ensures Shaped(entries[entry.name := entry], OnTop(chains, entry.name, entry), OnTop(model, entry.name, v))
    ensures NodesOf(OnTop(chains, entry.name, entry)) == NodesOf(chains) + {entry}
  {
    var name := entry.name;
    var chains' := OnTop(chains, name, entry);
    var c := if name in chains then chains[name] else [];
    if name in chains { assert ChainShaped(name, entries[name], chains[name], model[name]); }
    forall i, j | 0 <= i < |c + [entry]| && 0 <= j < |c + [entry]| ensures Apart(c + [entry], i, j) {
      assert i < |c| && j < |c| ==> Apart(c, i, j);
      assert i < |c| ==> chains[name][i] in NodesOf(chains);
      assert j < |c| ==> chains[name][j] in NodesOf(chains);
    }
    forall i | 0 <= i < |c + [entry]| ensures Named(c + [entry], name, i) { assert i < |c| ==> Named(c, name, i); }
    forall n | n in chains' ensures ChainShaped(n, entries[name := entry][n], chains'[n], OnTop(model, name, v)[n]) {
      assert n != name ==> ChainShaped(n, entries[n], chains[n], model[n]);
    }
    assert chains'[name][|chains'[name]| - 1] == entry;
    forall e | e in NodesOf(chains) ensures e in NodesOf(chains') {
      var n, i :| n in chains && 0 <= i < |chains[n]| && chains[n][i] == e;
      assert chains'[n][i] == e;
    }
  }

  /** Every walk the reader makes ends at an entry. */
  ghost predicate Readable(t: Reader, entries: Entries) {
    forall n :: n in entries ==> Traverse(t, entries[n]).Some?
  }
}
