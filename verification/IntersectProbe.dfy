/** Probing the hash tables of the multiway intersect operator. */
module IntersectProbe {
  import opened Intersection
  import opened IntersectMultiway

  /** A build tuple: a key, and for every output node a list of neighbours. */
  datatype Entry = Entry(key: NodeID, lists: seq<seq<NodeID>>)

  /** The tuples of one hash slot, the last inserted first. */
  datatype Chain = End | Link(entry: Entry, prev: Chain)

  /** A table is given by its tuples in insertion order. */
  datatype HashTable = HashTable(slotOf: NodeID -> nat, entries: seq<Entry>)

  function ChainOf(slotOf: NodeID -> nat, entries: seq<Entry>, slot: nat): Chain {
    if entries == [] then End
    else
      var n := |entries| - 1;
      var prev := ChainOf(slotOf, entries[..n], slot);
      if slotOf(entries[n].key) == slot then Link(entries[n], prev) else prev
  }

  function ListIn(e: Entry, key: NodeID, j: nat): Chunks {
    if e.key == key && j < |e.lists| && e.lists[j] != [] then [e.lists[j]] else []
  }

  /** All lists of a key for output node `j`, in insertion order. */
  function ListsOf(entries: seq<Entry>, key: NodeID, j: nat): Chunks {
    if entries == [] then []
    else ListsOf(entries[..|entries| - 1], key, j) + ListIn(entries[|entries| - 1], key, j)
  }

  /** What walking a chain collects. */
  function Walked(chain: Chain, key: NodeID, j: nat): Chunks {
    match chain
    case End => []
    case Link(e, prev) => ListIn(e, key, j) + Walked(prev, key, j)
  }

  function Reversed<T>(s: seq<T>): seq<T> {
    seq(|s|, i requires 0 <= i < |s| => s[|s| - 1 - i])
  }

  /** The chain of a key's slot holds all tuples of the key, whatever else hashes to the slot. */
  lemma {:induction false} WalkFindsKey(slotOf: NodeID -> nat, entries: seq<Entry>, key: NodeID, j: nat)
    ensures Reversed(Walked(ChainOf(slotOf, entries, slotOf(key)), key, j)) == ListsOf(entries, key, j)
  {
    if entries != [] {
      var n := |entries| - 1;
      WalkFindsKey(slotOf, entries[..n], key, j);
      var prev := Walked(ChainOf(slotOf, entries[..n], slotOf(key)), key, j);
      var last := ListIn(entries[n], key, j);
      assert Reversed(last + prev) == Reversed(prev) + last;
      assert [] + prev == prev;
    }
  }

  method ReverseInPlace<T>(s: seq<T>) returns (r: seq<T>)
    ensures r == Reversed(s)
  {
    r := s;
    var k := 0;
    while k < |s| / 2
      invariant 0 <= k <= |s| / 2 && |r| == |s|
      invariant forall i :: 0 <= i < k ==> r[i] == s[|s| - 1 - i] && r[|s| - 1 - i] == s[i]
      invariant forall i :: k <= i < |s| - k ==> r[i] == s[i]
    {
      r := r[k := r[|s| - 1 - k]][|s| - 1 - k := r[k]];
      k := k + 1;
    }
  }

  /** One tuple's lists, added for the connected output nodes. */
  method PushLists(lists: seq<Chunks>, e: Entry, key: NodeID, js: seq<nat>) returns (lists': seq<Chunks>)
    requires e.key == key && Increasing(js, |lists|) && |e.lists| == |lists|
    ensures |lists'| == |lists|
    ensures forall j :: j in js ==> lists'[j] == lists[j] + ListIn(e, key, j)
  {
    lists' := lists;
    var p := 0;
    while p < |js|
      invariant 0 <= p <= |js| && |lists'| == |lists|
      invariant forall q :: 0 <= q < p ==> lists'[js[q]] == lists[js[q]] + ListIn(e, key, js[q])
      invariant forall q :: p <= q < |js| ==> lists'[js[q]] == lists[js[q]]
    {
      var j := js[p];
      if e.lists[j] != [] {
        lists' := lists'[j := lists'[j] + [e.lists[j]]];
      }
      p := p + 1;
    }
  }

  /** Strictly increasing indices below `n`. */
  ghost predicate Increasing(js: seq<nat>, n: nat) {
    && (forall p :: 0 <= p < |js| ==> js[p] < n)
    && (forall p, q :: 0 <= p < q < |js| ==> js[p] < js[q])
  }

  ghost predicate ChainFits(chain: Chain, n: nat) {
    chain.Link? ==> |chain.entry.lists| == n && ChainFits(chain.prev, n)
  }

  lemma {:induction false} ChainOfFits(slotOf: NodeID -> nat, entries: seq<Entry>, slot: nat, n: nat)
    requires forall e :: e in entries ==> |e.lists| == n
    ensures ChainFits(ChainOf(slotOf, entries, slot), n)
  {
    if entries != [] { ChainOfFits(slotOf, entries[..|entries| - 1], slot, n); }
  }

  lemma {:induction false} OneWalked(chain: Chain, key: NodeID, j: nat, list: Chunks)
    requires chain.Link? && j < |chain.entry.lists|
    ensures list + Walked(chain, key, j) == list + ListIn(chain.entry, key, j) + Walked(chain.prev, key, j)
  {
  }

  method WalkChain(start: Chain, key: NodeID, js: seq<nat>, n: nat) returns (lists: seq<Chunks>, hasMatch: bool)
    requires ChainFits(start, n) && Increasing(js, n)
    ensures |lists| == n && forall j :: j in js ==> lists[j] == Walked(start, key, j)
    ensures !hasMatch ==> forall j :: j in js ==> lists[j] == []
  {
    lists, hasMatch := seq(n, _ => []), false;
    var chain := start;
    while chain.Link?
      invariant |lists| == n && ChainFits(chain, n)
      invariant forall j :: j in js ==> lists[j] + Walked(chain, key, j) == Walked(start, key, j)
      invariant !hasMatch ==> forall j :: j in js ==> lists[j] == []
      decreases chain
    {
      ghost var before := lists;
      if chain.entry.key == key {
        hasMatch := true;
        lists := PushLists(lists, chain.entry, key, js);
      }
      forall j | j in js ensures lists[j] + Walked(chain.prev, key, j) == Walked(start, key, j) {
        assert lists[j] == before[j] + ListIn(chain.entry, key, j);
        OneWalked(chain, key, j, before[j]);
      }
      chain := chain.prev;
    }
    assert forall j :: j in js ==> lists[j] + [] == lists[j];
  }

  /** All lists of a key, in insertion order; no result if a connected node has none. */
  method ProbeHT(t: HashTable, key: NodeID, js: seq<nat>, n: nat) returns (found: bool, lists: seq<Chunks>)
    requires Increasing(js, n) && js != [] && forall e :: e in t.entries ==> |e.lists| == n
    ensures |lists| == n
    ensures found <==> forall j :: j in js ==> ListsOf(t.entries, key, j) != []
    ensures found ==> forall j :: j in js ==> lists[j] == ListsOf(t.entries, key, j)
  {
    assert js[0] in js;
    if |t.entries| == 0 { return false, seq(n, _ => []); }
    ChainOfFits(t.slotOf, t.entries, t.slotOf(key), n);
    var chain := ChainOf(t.slotOf, t.entries, t.slotOf(key));
    var hasMatch;
    lists, hasMatch := WalkChain(chain, key, js, n);
    forall j | j in js ensures Reversed(lists[j]) == ListsOf(t.entries, key, j) {
      WalkFindsKey(t.slotOf, t.entries, key, j);
    }
    ghost var walked := lists;
    var p := 0;
    while p < |js|
      invariant 0 <= p <= |js| && |lists| == n
      invariant forall q :: 0 <= q < p ==> lists[js[q]] != [] && lists[js[q]] == Reversed(walked[js[q]])
      invariant forall q :: p <= q < |js| ==> lists[js[q]] == walked[js[q]]
    {
      var j := js[p];
      if |lists[j]| == 0 {
        assert Reversed(walked[j]) == [];
        return false, lists;
      }
      var reversed := ReverseInPlace(lists[j]);
      lists := lists[j := reversed];
      p := p + 1;
    }
    assert hasMatch by { assert Reversed(walked[js[0]]) == lists[js[0]]; }
    found := hasMatch;
  }
}
