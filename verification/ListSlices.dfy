/** Slicing the elements of all selected lists of a vector into pieces of bounded size. */
module ListSlices {
  import opened Bags

  datatype Entry = Entry(offset: nat, size: nat)

  /** A list's position in its vector, and an element's position in the data vector. */
  datatype Pair = Pair(list: nat, data: nat)

  datatype ListVector = ListVector(nulls: seq<bool>, entries: seq<Entry>) {
    ghost predicate Valid() {
      |nulls| == |entries|
    }
  }

  ghost predicate Selects(v: ListVector, sel: seq<nat>) {
    v.Valid() && forall i :: 0 <= i < |sel| ==> sel[i] < |v.entries|
  }

  // ----- what is to be sliced -----

  /** The elements of one list, none if it is null. */
  function ElementsOf(v: ListVector, list: nat): seq<Pair> {
    if list < |v.entries| && list < |v.nulls| && !v.nulls[list] then
      seq(v.entries[list].size, k requires 0 <= k < v.entries[list].size => Pair(list, v.entries[list].offset + k))
    else []
  }

  function Elements(v: ListVector, lists: seq<nat>): seq<Pair> {
    if lists == [] then [] else ElementsOf(v, lists[0]) + Elements(v, lists[1..])
  }

  lemma {:induction false} ElementsIsFlatMap(v: ListVector, lists: seq<nat>)
    ensures Elements(v, lists) == FlatMap((l: nat) => ElementsOf(v, l), lists)
  {
    if lists != [] { ElementsIsFlatMap(v, lists[1..]); }
  }

  /** The lists in another order have the same elements, each as often. */
  lemma {:induction false} ElementsOfPermutation(v: ListVector, a: seq<nat>, b: seq<nat>)
    requires multiset(a) == multiset(b)
    ensures multiset(Elements(v, a)) == multiset(Elements(v, b))
  {
    ElementsIsFlatMap(v, a);
    ElementsIsFlatMap(v, b);
    FlatMapPermute((l: nat) => ElementsOf(v, l), a, b);
  }

  /** An element of a list: its data position lies in the list's part of the data vector. */
  ghost predicate IsElement(v: ListVector, p: Pair) {
    && p.list < |v.entries| && p.list < |v.nulls| && !v.nulls[p.list]
    && v.entries[p.list].offset <= p.data < v.entries[p.list].offset + v.entries[p.list].size
  }

  /** Every element is there as often as its list is selected, and nothing else is. */
  lemma {:induction false} ElementsCount(v: ListVector, lists: seq<nat>, p: Pair)
    ensures multiset(Elements(v, lists))[p] == if IsElement(v, p) then multiset(lists)[p.list] else 0
  {
    if lists != [] {
      ElementsCount(v, lists[1..], p);
      ElementOnce(v, lists[0], p);
      assert lists == [lists[0]] + lists[1..];
    }
  }

  lemma {:induction false} ElementOnce(v: ListVector, list: nat, p: Pair)
    ensures multiset(ElementsOf(v, list))[p] == if IsElement(v, p) && p.list == list then 1 else 0
  {
    var all := ElementsOf(v, list);
    if IsElement(v, p) && p.list == list {
      var k := p.data - v.entries[list].offset;
      assert all == all[..k] + [all[k]] + all[k + 1..] && all[k] == p;
      assert p !in all[..k] && p !in all[k + 1..];
    } else {
      assert p !in all;
    }
  }

  // ----- the order of the lists -----

  function Offsets(v: ListVector, lists: seq<nat>): (r: seq<nat>)
    requires forall i :: 0 <= i < |lists| ==> lists[i] < |v.entries|
    ensures |r| == |lists|
  {
    seq(|lists|, i requires 0 <= i < |lists| => v.entries[lists[i]].offset)
  }

  ghost predicate Ascending(s: seq<nat>) {
    forall i, j :: 0 <= i < j < |s| ==> s[i] <= s[j]
  }

  ghost predicate ByOffset(v: ListVector, lists: seq<nat>)
    requires Selects(v, lists)
  {
    Ascending(Offsets(v, lists))
  }

  method SortByOffset(v: ListVector, sel: seq<nat>) returns (lists: seq<nat>)
    requires Selects(v, sel)
    ensures multiset(lists) == multiset(sel) && Selects(v, lists) && ByOffset(v, lists)
  {
    lists := [];
    var n := 0;
    while n < |sel|
      invariant 0 <= n <= |sel| && multiset(lists) == multiset(sel[..n]) && Selects(v, lists) && ByOffset(v, lists)
    {
      lists := InsertByOffset(v, lists, sel[n]);
      assert sel[..n + 1] == sel[..n] + [sel[n]];
      n := n + 1;
    }
    assert sel[..n] == sel;
  }

  lemma {:induction false} AscendingInsert(s: seq<nat>, k: nat, x: nat)
    requires Ascending(s) && k <= |s| && (k > 0 ==> s[k - 1] <= x) && (forall i :: k <= i < |s| ==> x < s[i])
    ensures Ascending(s[..k] + [x] + s[k..])
  {
    forall i | 0 <= i < k ensures s[i] <= x { assert i < k - 1 ==> s[i] <= s[k - 1]; }
  }

  /** A list put behind those with offsets up to its own and before the others. */
  lemma {:induction false} Inserted(v: ListVector, lists: seq<nat>, k: nat, list: nat)
    requires Selects(v, lists) && ByOffset(v, lists) && list < |v.entries| && k <= |lists|
    requires k > 0 ==> Offsets(v, lists)[k - 1] <= v.entries[list].offset
    requires forall i :: k <= i < |lists| ==> v.entries[list].offset < Offsets(v, lists)[i]
    ensures var r := lists[..k] + [list] + lists[k..]; Selects(v, r) && ByOffset(v, r)
  {
    var r, s, x := lists[..k] + [list] + lists[k..], Offsets(v, lists), v.entries[list].offset;
    assert Offsets(v, r) == s[..k] + [x] + s[k..];
    AscendingInsert(s, k, x);
  }

  lemma {:induction false} InsertedBag(lists: seq<nat>, k: nat, list: nat)
    requires k <= |lists|
    ensures multiset(lists[..k] + [list] + lists[k..]) == multiset(lists) + multiset{list}
  {
    assert lists == lists[..k] + lists[k..];
  }

  /** How many lists stay before one with this offset. */
  method PlaceFor(offsets: seq<nat>, offset: nat) returns (k: nat)
    ensures k <= |offsets| && (k > 0 ==> offsets[k - 1] <= offset)
    ensures forall i :: k <= i < |offsets| ==> offset < offsets[i]
  {
    k := |offsets|;
    while k > 0 && offset < offsets[k - 1]
      invariant 0 <= k <= |offsets| && forall i :: k <= i < |offsets| ==> offset < offsets[i]
    {
      k := k - 1;
    }
  }

  method InsertByOffset(v: ListVector, lists: seq<nat>, list: nat) returns (r: seq<nat>)
    requires Selects(v, lists) && ByOffset(v, lists) && list < |v.entries|
    ensures multiset(r) == multiset(lists) + multiset{list} && Selects(v, r) && ByOffset(v, r)
  {
    var k := PlaceFor(Offsets(v, lists), v.entries[list].offset);
    Inserted(v, lists, k, list);
    InsertedBag(lists, k, list);
    r := lists[..k] + [list] + lists[k..];
  }

  // ----- walking over the elements -----

  /** A position within the lists: at an element, or behind the last. */
  ghost predicate AtElement(v: ListVector, lists: seq<nat>, idx: nat, offset: nat) {
    && Selects(v, lists) && idx <= |lists|
    && (idx < |lists| ==> !v.nulls[lists[idx]] && offset < v.entries[lists[idx]].size)
  }

  /** The elements from a position on. */
  ghost function From(v: ListVector, lists: seq<nat>, idx: nat, offset: nat): seq<Pair>
    requires AtElement(v, lists, idx, offset)
  {
    if idx == |lists| then [] else ElementsOf(v, lists[idx])[offset..] + Elements(v, lists[idx + 1..])
  }

  lemma {:induction false} FromNext(v: ListVector, lists: seq<nat>, idx: nat, offset: nat)
    requires AtElement(v, lists, idx, offset) && idx < |lists|
    ensures var all := From(v, lists, idx, offset);
            && all != [] && all[0] == Pair(lists[idx], v.entries[lists[idx]].offset + offset)
            && (if offset + 1 < v.entries[lists[idx]].size then all[1..] == From(v, lists, idx, offset + 1)
                else all[1..] == Elements(v, lists[idx + 1..]))
  {
    var here, later := ElementsOf(v, lists[idx]), Elements(v, lists[idx + 1..]);
    assert (here[offset..] + later)[1..] == here[offset + 1..] + later;
    assert offset + 1 == |here| ==> here[offset + 1..] + later == later;
  }

  lemma {:induction false} SkipEmpty(v: ListVector, lists: seq<nat>, idx: nat)
    requires Selects(v, lists) && idx < |lists| && NoElements(v, lists, idx)
    ensures Elements(v, lists[idx..]) == Elements(v, lists[idx + 1..])
  {
    assert lists[idx..][1..] == lists[idx + 1..];
    assert ElementsOf(v, lists[idx]) == [];
  }

  lemma {:induction false} FromStart(v: ListVector, lists: seq<nat>, idx: nat)
    requires Selects(v, lists) && idx <= |lists| && (idx < |lists| ==> !NoElements(v, lists, idx))
    ensures AtElement(v, lists, idx, 0) && From(v, lists, idx, 0) == Elements(v, lists[idx..])
  {
    if idx < |lists| {
      assert lists[idx..][1..] == lists[idx + 1..];
      assert ElementsOf(v, lists[idx])[0..] == ElementsOf(v, lists[idx]);
    }
  }

  predicate NoElements(v: ListVector, lists: seq<nat>, idx: nat)
    requires Selects(v, lists) && idx < |lists|
  {
    v.nulls[lists[idx]] || v.entries[lists[idx]].size == 0
  }

  /** From a list on, the first that is neither null nor empty. */
  method FirstElement(v: ListVector, lists: seq<nat>, start: nat) returns (idx: nat)
    requires Selects(v, lists) && start <= |lists|
    ensures AtElement(v, lists, idx, 0) && From(v, lists, idx, 0) == Elements(v, lists[start..])
  {
    idx := start;
    while idx < |lists| && NoElements(v, lists, idx)
      invariant start <= idx <= |lists| && Elements(v, lists[idx..]) == Elements(v, lists[start..])
    {
      SkipEmpty(v, lists, idx);
      idx := idx + 1;
    }
    FromStart(v, lists, idx);
  }

  lemma {:induction false} MoveOne<T>(a: seq<T>, b: seq<T>)
    requires b != []
    ensures a + b == a + [b[0]] + b[1..]
  {
  }

  class ListEntryTracker {
    const v: ListVector
    const lists: seq<nat>
    var listIdx: nat
    var offsetInList: nat
    /** The elements not yet passed. */
    ghost var left: seq<Pair>

    ghost predicate Valid()
      reads this
    {
      AtElement(v, lists, listIdx, offsetInList) && left == From(v, lists, listIdx, offsetInList)
    }

    constructor (v: ListVector, sorted: seq<nat>)
      requires Selects(v, sorted)
      ensures Valid() && left == Elements(v, sorted)
    {
      this.v, lists, listIdx, offsetInList, left := v, sorted, 0, 0, Elements(v, sorted);
      new;
      assert lists[0..] == lists;
      UpdateListEntry();
    }

    /** Past lists that are null or empty. */
    method UpdateListEntry()
      requires Selects(v, lists) && listIdx <= |lists| && offsetInList == 0 && left == Elements(v, lists[listIdx..])
      modifies this`listIdx
      ensures Valid()
    {
      listIdx := FirstElement(v, lists, listIdx);
    }

    predicate Done()
      reads this
    {
      listIdx >= |lists|
    }

    function Current(): (p: Pair)
      requires Valid() && !Done()
      reads this
      ensures left != [] && p == left[0]
    {
      FromNext(v, lists, listIdx, offsetInList);
      Pair(lists[listIdx], v.entries[lists[listIdx]].offset + offsetInList)
    }

    method Next()
      requires Valid() && !Done()
      modifies this
      ensures Valid() && left == old(left)[1..]
    {
      FromNext(v, lists, listIdx, offsetInList);
      left := left[1..];
      offsetInList := offsetInList + 1;
      if offsetInList >= v.entries[lists[listIdx]].size {
        listIdx := listIdx + 1;
        offsetInList := 0;
        UpdateListEntry();
      }
    }

    /** The next slice: as much as fits. */
    method NextSlice(capacity: nat) returns (slice: seq<Pair>)
      requires Valid()
      modifies this
      ensures Valid() && slice + left == old(left) && |slice| <= capacity
      ensures !Done() ==> |slice| == capacity
      ensures Done() ==> left == []
    {
      slice := [];
      assert [] + left == left;
      while !Done() && |slice| < capacity
        invariant Valid() && slice + left == old(left) && |slice| <= capacity
        decreases capacity - |slice|
      {
        var p := Current();
        MoveOne(slice, left);
        slice := slice + [p];
        Next();
      }
    }

    /** Slices until all elements are passed, at least one. */
    method Slices(capacity: nat) returns (slices: seq<seq<Pair>>)
      requires Valid() && capacity > 0
      modifies this
      ensures Sliced(slices, old(left), [], capacity, false)
    {
      slices := [];
      var more := true;
      assert Concat([]) + left == left;
      while more
        invariant Valid() && Sliced(slices, old(left), left, capacity, more) && (!more ==> left == [])
        decreases |left|, more
      {
        ghost var was := left;
        var slice := NextSlice(capacity);
        more := !Done();
        SlicedMore(slices, old(left), was, slice, left, capacity, more);
        slices := slices + [slice];
      }
    }
  }

  function Concat(slices: seq<seq<Pair>>): seq<Pair> {
    if slices == [] then [] else Concat(slices[..|slices| - 1]) + slices[|slices| - 1]
  }

  /** Slices of `all` up to what is left, full but for the last; that one too while more is to come. */
  ghost predicate Sliced(slices: seq<seq<Pair>>, all: seq<Pair>, left: seq<Pair>, capacity: nat, more: bool) {
    && Concat(slices) + left == all && (!more ==> slices != [])
    && (forall i :: 0 <= i < |slices| ==> |slices[i]| <= capacity)
    && (forall i :: 0 <= i < |slices| && (more || i < |slices| - 1) ==> |slices[i]| == capacity)
  }

  lemma {:induction false} SlicedMore(slices: seq<seq<Pair>>, all: seq<Pair>, was: seq<Pair>, slice: seq<Pair>,
                                      left: seq<Pair>, capacity: nat, more: bool)
    requires Sliced(slices, all, was, capacity, true) && slice + left == was && |slice| <= capacity &&
             (more ==> |slice| == capacity)
    ensures Sliced(slices + [slice], all, left, capacity, more)
  {
    ConcatSnoc(slices, slice);
    assert Concat(slices) + (slice + left) == Concat(slices) + slice + left;
  }

  /** All slices of a vector: one behind the other they are the elements of the selected lists, taken by
      ascending offset, none holds more than the capacity, and all but the last are full. */
  method AllSlices(v: ListVector, sel: seq<nat>, capacity: nat) returns (slices: seq<seq<Pair>>)
    requires Selects(v, sel) && capacity > 0
    ensures slices != [] && multiset(Concat(slices)) == multiset(Elements(v, sel))
    ensures exists lists :: InOffsetOrder(v, sel, lists) && Concat(slices) == Elements(v, lists)
    ensures forall i :: 0 <= i < |slices| ==> |slices[i]| <= capacity
    ensures forall i :: 0 <= i < |slices| - 1 ==> |slices[i]| == capacity
  {
    var sorted := SortByOffset(v, sel);
    ElementsOfPermutation(v, sorted, sel);
    var tracker := new ListEntryTracker(v, sorted);
    slices := tracker.Slices(capacity);
    assert Concat(slices) + [] == Concat(slices);
    assert InOffsetOrder(v, sel, sorted);
  }

  /** The selected lists by ascending offset. */
  ghost predicate InOffsetOrder(v: ListVector, sel: seq<nat>, lists: seq<nat>) {
    multiset(lists) == multiset(sel) && Selects(v, lists) && ByOffset(v, lists)
  }

  lemma {:induction false} ConcatSnoc(slices: seq<seq<Pair>>, slice: seq<Pair>)
    ensures Concat(slices + [slice]) == Concat(slices) + slice
  {
    assert (slices + [slice])[..|slices|] == slices;
  }
}
