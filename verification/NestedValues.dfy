/** Nested values in vectors: their order, and comparison position by position. */
module NestedValues {

  datatype Type = LeafType | ListType(elem: Type) | StructType(fields: seq<Type>)
  datatype Value = Null | Leaf(x: int) | List(elems: seq<Value>) | Struct(fields: seq<Value>)

  ghost predicate HasType(v: Value, t: Type)
    decreases v
  {
    match v
    case Null => true
    case Leaf(_) => t.LeafType?
    case List(elems) => t.ListType? && AllHaveType(elems, t.elem)
    case Struct(fields) => t.StructType? && HaveTypes(fields, t.fields)
  }

  ghost predicate AllHaveType(vs: seq<Value>, t: Type)
    decreases vs
  {
    vs == [] || (HasType(vs[0], t) && AllHaveType(vs[1..], t))
  }

  ghost predicate HaveTypes(vs: seq<Value>, ts: seq<Type>)
    decreases vs
  {
    |vs| == |ts| && (vs == [] || (HasType(vs[0], ts[0]) && HaveTypes(vs[1..], ts[1..])))
  }

  // ----- the order -----

  /** Null is greatest; lists and structs compare element by element, then by length. */
  predicate Greater(a: Value, b: Value)
    decreases a
  {
    if a.Null? || b.Null? then a.Null? && !b.Null?
    else
      match (a, b)
      case (Leaf(x), Leaf(y)) => x > y
      case (List(xs), List(ys)) => GreaterAll(xs, ys)
      case (Struct(xs), Struct(ys)) => GreaterAll(xs, ys)
      case _ => false
  }

  predicate GreaterAll(xs: seq<Value>, ys: seq<Value>)
    decreases xs
  {
    xs != [] && (ys == [] || Greater(xs[0], ys[0]) || (xs[0] == ys[0] && GreaterAll(xs[1..], ys[1..])))
  }

  /** Exactly one of: the first is greater, the second is greater, they are equal. */
  ghost predicate OneHolds(a: bool, b: bool, c: bool) {
    (a || b || c) && !(a && b) && !(a && c) && !(b && c)
  }

  lemma {:induction false} Trichotomy(a: Value, b: Value, t: Type)
    requires HasType(a, t) && HasType(b, t)
    ensures OneHolds(Greater(a, b), Greater(b, a), a == b)
    decreases a
  {
    match (a, b)
    case (List(xs), List(ys)) => ListTrichotomy(xs, ys, t.elem);
    case (Struct(xs), Struct(ys)) => StructTrichotomy(xs, ys, t.fields);
    case _ =>
  }

  lemma {:induction false} ListTrichotomy(xs: seq<Value>, ys: seq<Value>, t: Type)
    requires AllHaveType(xs, t) && AllHaveType(ys, t)
    ensures OneHolds(GreaterAll(xs, ys), GreaterAll(ys, xs), xs == ys)
    decreases xs
  {
    if xs != [] && ys != [] {
      Trichotomy(xs[0], ys[0], t);
      ListTrichotomy(xs[1..], ys[1..], t);
      assert xs == [xs[0]] + xs[1..] && ys == [ys[0]] + ys[1..];
    }
  }

  lemma {:induction false} StructTrichotomy(xs: seq<Value>, ys: seq<Value>, ts: seq<Type>)
    requires HaveTypes(xs, ts) && HaveTypes(ys, ts)
    ensures OneHolds(GreaterAll(xs, ys), GreaterAll(ys, xs), xs == ys)
    decreases xs
  {
    if xs != [] && ys != [] {
      Trichotomy(xs[0], ys[0], ts[0]);
      StructTrichotomy(xs[1..], ys[1..], ts[1..]);
      assert xs == [xs[0]] + xs[1..] && ys == [ys[0]] + ys[1..];
    }
  }

  lemma {:induction false} Transitive(a: Value, b: Value, c: Value)
    requires Greater(a, b) && Greater(b, c)
    ensures Greater(a, c)
    decreases a
  {
    match (a, b)
    case (List(xs), List(ys)) => if c.List? { AllTransitive(xs, ys, c.elems); }
    case (Struct(xs), Struct(ys)) => if c.Struct? { AllTransitive(xs, ys, c.fields); }
    case _ =>
  }

  lemma {:induction false} AllTransitive(xs: seq<Value>, ys: seq<Value>, zs: seq<Value>)
    requires GreaterAll(xs, ys) && GreaterAll(ys, zs)
    ensures GreaterAll(xs, zs)
    decreases xs
  {
    if zs != [] {
      if Greater(xs[0], ys[0]) && Greater(ys[0], zs[0]) {
        Transitive(xs[0], ys[0], zs[0]);
      } else if xs[0] == ys[0] && ys[0] == zs[0] && !Greater(xs[0], ys[0]) && !Greater(ys[0], zs[0]) {
        AllTransitive(xs[1..], ys[1..], zs[1..]);
      } else if xs[0] == ys[0] == zs[0] {
        NotAboveItself(xs[0]);
      }
    }
  }

  lemma {:induction false} NotAboveItself(a: Value)
    ensures !Greater(a, a)
    decreases a
  {
    match a
    case List(xs) => NoneAboveItself(xs);
    case Struct(xs) => NoneAboveItself(xs);
    case _ =>
  }

  lemma {:induction false} NoneAboveItself(xs: seq<Value>)
    ensures !GreaterAll(xs, xs)
    decreases xs
  {
    if xs != [] {
      NotAboveItself(xs[0]);
      NoneAboveItself(xs[1..]);
    }
  }

  // ----- what the order is -----

  /** Where two sequences differ for the first time. */
  ghost predicate DifferFirst(xs: seq<Value>, ys: seq<Value>, i: nat) {
    i < |xs| && i < |ys| && xs[..i] == ys[..i] && xs[i] != ys[i]
  }

  /** One sequence goes on where the other ends. */
  ghost predicate Continues(xs: seq<Value>, ys: seq<Value>) {
    |ys| < |xs| && xs[..|ys|] == ys
  }

  /** The first difference decides; without one the longer sequence is greater. */
  lemma {:induction false} FirstDifferenceDecides(xs: seq<Value>, ys: seq<Value>)
    ensures GreaterAll(xs, ys) <==>
            Continues(xs, ys) || exists i: nat :: DifferFirst(xs, ys, i) && Greater(xs[i], ys[i])
    decreases xs
  {
    if xs == [] || ys == [] {
      assert ys == [] ==> xs[..0] == ys;
    } else if xs[0] != ys[0] {
      assert xs[..0] == ys[..0] && DifferFirst(xs, ys, 0);
      forall i: nat ensures DifferFirst(xs, ys, i) ==> i == 0 { OtherBeginning(xs, ys, i); }
      OtherBeginning(xs, ys, |ys|);
      assert ys[..|ys|] == ys;
    } else {
      NotAboveItself(xs[0]);
      FirstDifferenceDecides(xs[1..], ys[1..]);
      forall i: nat ensures DifferFirst(xs, ys, i + 1) <==> DifferFirst(xs[1..], ys[1..], i) {
        if i < |xs[1..]| && i < |ys[1..]| { SameBeginning(xs, ys, i + 1); }
      }
      forall i: nat | DifferFirst(xs, ys, i) ensures i > 0 {}
      if |ys| <= |xs| { SameBeginning(xs, ys, |ys|); }
      assert ys[..|ys|] == ys && ys[1..][..|ys| - 1] == ys[1..];
      if exists i: nat :: DifferFirst(xs, ys, i) && Greater(xs[i], ys[i]) {
        var i: nat :| DifferFirst(xs, ys, i) && Greater(xs[i], ys[i]);
        assert DifferFirst(xs[1..], ys[1..], i - 1);
      }
      if exists i: nat :: DifferFirst(xs[1..], ys[1..], i) && Greater(xs[1..][i], ys[1..][i]) {
        var i: nat :| DifferFirst(xs[1..], ys[1..], i) && Greater(xs[1..][i], ys[1..][i]);
        assert DifferFirst(xs, ys, i + 1);
      }
    }
  }

  lemma {:induction false} OtherBeginning(xs: seq<Value>, ys: seq<Value>, i: nat)
    requires xs != [] && ys != [] && xs[0] != ys[0]
    ensures 0 < i <= |xs| && i <= |ys| ==> xs[..i] != ys[..i]
  {
    if 0 < i <= |xs| && i <= |ys| { assert xs[..i][0] == xs[0] && ys[..i][0] == ys[0]; }
  }

  lemma {:induction false} SameBeginning(xs: seq<Value>, ys: seq<Value>, i: nat)
    requires 0 < i <= |xs| && i <= |ys| && xs[0] == ys[0]
    ensures xs[..i] == ys[..i] <==> xs[1..][..i - 1] == ys[1..][..i - 1]
  {
    assert xs[..i] == [xs[0]] + xs[1..][..i - 1] && ys[..i] == [ys[0]] + ys[1..][..i - 1];
    assert xs[1..][..i - 1] == xs[..i][1..] && ys[1..][..i - 1] == ys[..i][1..];
  }

  /** The order of the values of a type: leaves as their numbers, null above everything else, lists and
      structs by their first difference and then by length. */
  lemma {:induction false} OrderIs(a: Value, b: Value, t: Type)
    requires HasType(a, t) && HasType(b, t)
    ensures a.Leaf? && b.Leaf? ==> (Greater(a, b) <==> a.x > b.x)
    ensures a.Null? ==> (Greater(a, b) <==> b != Null)
    ensures b.Null? ==> !Greater(a, b)
    ensures a.List? && b.List? ==>
              (Greater(a, b) <==>
               Continues(a.elems, b.elems) ||
               exists i: nat :: DifferFirst(a.elems, b.elems, i) && Greater(a.elems[i], b.elems[i]))
    ensures a.Struct? && b.Struct? ==>
              (Greater(a, b) <==>
               exists i: nat :: DifferFirst(a.fields, b.fields, i) && Greater(a.fields[i], b.fields[i]))
  {
    if a.List? && b.List? {
      FirstDifferenceDecides(a.elems, b.elems);
    } else if a.Struct? && b.Struct? {
      FirstDifferenceDecides(a.fields, b.fields);
    }
  }

  // ----- vectors -----

  datatype Entry = Entry(offset: nat, size: nat)

  /** A column of values: leaves, lists as ranges of a data vector, or structs as one vector per field. */
  datatype Vector =
    | LeafVector(nulls: seq<bool>, values: seq<int>)
    | ListVector(nulls: seq<bool>, entries: seq<Entry>, data: Vector)
    | StructVector(nulls: seq<bool>, columns: seq<Vector>)

  function TypeOf(v: Vector): Type {
    match v
    case LeafVector(_, _) => LeafType
    case ListVector(_, _, data) => ListType(TypeOf(data))
    case StructVector(_, columns) => StructType(seq(|columns|, i requires 0 <= i < |columns| => TypeOf(columns[i])))
  }

  ghost predicate VectorOk(v: Vector) {
    match v
    case LeafVector(nulls, values) => |values| == |nulls|
    case ListVector(nulls, entries, data) =>
      && |entries| == |nulls| && VectorOk(data)
      && forall i :: 0 <= i < |entries| ==> entries[i].offset + entries[i].size <= |data.nulls|
    case StructVector(nulls, columns) =>
      |columns| > 0 && forall i :: 0 <= i < |columns| ==> VectorOk(columns[i]) && |columns[i].nulls| == |nulls|
  }

  /** The value at a position. */
  ghost function ValueAt(v: Vector, pos: nat): Value
    requires VectorOk(v) && pos < |v.nulls|
    decreases v, 1
  {
    if v.nulls[pos] then Null else Stored(v, pos)
  }

  /** The value stored at a position, whatever its null bit. */
  ghost function Stored(v: Vector, pos: nat): Value
    requires VectorOk(v) && pos < |v.nulls|
    decreases v, 0
  {
    match v
    case LeafVector(_, values) => Leaf(values[pos])
    case ListVector(_, entries, data) => List(Slice(data, entries[pos].offset, entries[pos].size))
    case StructVector(_, columns) => Struct(Across(columns, pos))
  }

  ghost function Slice(data: Vector, offset: nat, size: nat): (r: seq<Value>)
    requires VectorOk(data) && offset + size <= |data.nulls|
    ensures |r| == size
    decreases data, 2
  {
    seq(size, i requires 0 <= i < size => ValueAt(data, offset + i))
  }

  ghost function Across(columns: seq<Vector>, pos: nat): (r: seq<Value>)
    requires forall i :: 0 <= i < |columns| ==> VectorOk(columns[i]) && pos < |columns[i].nulls|
    ensures |r| == |columns|
    decreases columns
  {
    seq(|columns|, i requires 0 <= i < |columns| => ValueAt(columns[i], pos))
  }

  // ----- comparison in place -----

  lemma {:induction false} SameKind(l: Vector, r: Vector)
    requires TypeOf(l) == TypeOf(r)
    ensures l.LeafVector? <==> r.LeafVector?
    ensures l.ListVector? <==> r.ListVector?
    ensures l.ListVector? ==> TypeOf(l.data) == TypeOf(r.data)
    ensures l.StructVector? ==> |l.columns| == |r.columns| && forall i :: 0 <= i < |l.columns| ==>
              TypeOf(l.columns[i]) == TypeOf(r.columns[i])
  {
    if l.StructVector? {
      forall i | 0 <= i < |l.columns| ensures TypeOf(l.columns[i]) == TypeOf(r.columns[i]) {
        assert TypeOf(l).fields[i] == TypeOf(r).fields[i];
      }
    }
  }

  ghost predicate Comparable(l: Vector, p: nat, r: Vector, q: nat) {
    VectorOk(l) && VectorOk(r) && TypeOf(l) == TypeOf(r) && p < |l.nulls| && q < |r.nulls|
  }

  /** Two nulls are equal here, and a null equals nothing else. */
  method NestedEqual(l: Vector, p: nat, r: Vector, q: nat) returns (result: bool)
    requires Comparable(l, p, r, q)
    ensures result <==> ValueAt(l, p) == ValueAt(r, q)
    decreases l, 1
  {
    if l.nulls[p] && r.nulls[q] {
      result := true;
    } else if l.nulls[p] != r.nulls[q] {
      result := false;
    } else {
      result := EqualStored(l, p, r, q);
    }
  }

  method EqualStored(l: Vector, p: nat, r: Vector, q: nat) returns (result: bool)
    requires Comparable(l, p, r, q)
    ensures result <==> Stored(l, p) == Stored(r, q)
    decreases l, 0
  {
    SameKind(l, r);
    match l
    case LeafVector(_, values) => result := values[p] == r.values[q];
    case ListVector(_, entries, data) => result := EqualLists(data, entries[p], r.data, r.entries[q]);
    case StructVector(_, columns) => result := EqualStructs(columns, p, r.columns, q);
  }

  method EqualLists(l: Vector, a: Entry, r: Vector, b: Entry) returns (result: bool)
    requires VectorOk(l) && VectorOk(r) && TypeOf(l) == TypeOf(r)
    requires a.offset + a.size <= |l.nulls| && b.offset + b.size <= |r.nulls|
    ensures result <==> Slice(l, a.offset, a.size) == Slice(r, b.offset, b.size)
    decreases l, 2
  {
    if a.size != b.size { return false; }
    var i := 0;
    while i < a.size
      invariant 0 <= i <= a.size
      invariant forall k :: 0 <= k < i ==> Slice(l, a.offset, a.size)[k] == Slice(r, b.offset, b.size)[k]
    {
      result := NestedEqual(l, a.offset + i, r, b.offset + i);
      if !result {
        assert Slice(l, a.offset, a.size)[i] != Slice(r, b.offset, b.size)[i];
        return;
      }
      i := i + 1;
    }
    result := true;
  }

  ghost predicate ComparableColumns(ls: seq<Vector>, p: nat, rs: seq<Vector>, q: nat) {
    |ls| == |rs| && forall i :: 0 <= i < |ls| ==> Comparable(ls[i], p, rs[i], q)
  }

  method EqualStructs(ls: seq<Vector>, p: nat, rs: seq<Vector>, q: nat) returns (result: bool)
    requires ComparableColumns(ls, p, rs, q)
    ensures result <==> Across(ls, p) == Across(rs, q)
    decreases ls
  {
    var i := 0;
    while i < |ls|
      invariant 0 <= i <= |ls|
      invariant forall k :: 0 <= k < i ==> Across(ls, p)[k] == Across(rs, q)[k]
    {
      result := NestedEqual(ls[i], p, rs[i], q);
      if !result {
        assert Across(ls, p)[i] != Across(rs, q)[i];
        return;
      }
      i := i + 1;
    }
    result := true;
  }

  /** Whether the left value is greater, and whether they are equal. */
  method NestedGreater(l: Vector, p: nat, r: Vector, q: nat) returns (greater: bool, equal: bool)
    requires Comparable(l, p, r, q)
    ensures greater <==> Greater(ValueAt(l, p), ValueAt(r, q))
    ensures greater ==> !equal
    ensures !greater ==> (equal <==> ValueAt(l, p) == ValueAt(r, q))
    decreases l, 1
  {
    if l.nulls[p] || r.nulls[q] {
      greater := !r.nulls[q];
      equal := l.nulls[p] == r.nulls[q];
    } else {
      greater := GreaterStored(l, p, r, q);
      if !greater {
        equal := EqualStored(l, p, r, q);
      } else {
        equal := false;
      }
    }
  }

  method GreaterStored(l: Vector, p: nat, r: Vector, q: nat) returns (result: bool)
    requires Comparable(l, p, r, q)
    ensures result <==> Greater(Stored(l, p), Stored(r, q))
    decreases l, 0
  {
    SameKind(l, r);
    match l
    case LeafVector(_, values) => result := values[p] > r.values[q];
    case ListVector(_, entries, data) => result := GreaterLists(data, entries[p], r.data, r.entries[q]);
    case StructVector(_, columns) => result := GreaterStructs(columns, p, r.columns, q);
  }

  /** After equal beginnings the order is that of the rest. */
  lemma {:induction false} GreaterFrom(xs: seq<Value>, ys: seq<Value>, i: nat)
    requires i <= |xs| && i <= |ys| && xs[..i] == ys[..i]
    ensures GreaterAll(xs, ys) <==> GreaterAll(xs[i..], ys[i..])
    decreases i
  {
    if i == 0 {
      assert xs[0..] == xs && ys[0..] == ys;
    } else {
      assert xs[0] == xs[..i][0] && ys[0] == ys[..i][0];
      NotAboveItself(xs[0]);
      assert xs[1..][..i - 1] == xs[..i][1..] && ys[1..][..i - 1] == ys[..i][1..];
      assert xs[1..][i - 1..] == xs[i..] && ys[1..][i - 1..] == ys[i..];
      GreaterFrom(xs[1..], ys[1..], i - 1);
    }
  }

  method GreaterLists(l: Vector, a: Entry, r: Vector, b: Entry) returns (result: bool)
    requires VectorOk(l) && VectorOk(r) && TypeOf(l) == TypeOf(r)
    requires a.offset + a.size <= |l.nulls| && b.offset + b.size <= |r.nulls|
    ensures result <==> GreaterAll(Slice(l, a.offset, a.size), Slice(r, b.offset, b.size))
    decreases l, 2
  {
    ghost var xs, ys := Slice(l, a.offset, a.size), Slice(r, b.offset, b.size);
    var common := if a.size < b.size then a.size else b.size;
    var i := 0;
    while i < common
      invariant 0 <= i <= common && xs[..i] == ys[..i]
    {
      var equal;
      result, equal := NestedGreater(l, a.offset + i, r, b.offset + i);
      GreaterFrom(xs, ys, i);
      if result || (!result && !equal) { return; }
      i := i + 1;
    }
    GreaterFrom(xs, ys, common);
    result := a.size > b.size;
  }

  method GreaterStructs(ls: seq<Vector>, p: nat, rs: seq<Vector>, q: nat) returns (result: bool)
    requires ComparableColumns(ls, p, rs, q)
    ensures result <==> GreaterAll(Across(ls, p), Across(rs, q))
    decreases ls
  {
    ghost var xs, ys := Across(ls, p), Across(rs, q);
    var i := 0;
    while i < |ls|
      invariant 0 <= i <= |ls| && xs[..i] == ys[..i]
    {
      var equal;
      result, equal := NestedGreater(ls[i], p, rs[i], q);
      GreaterFrom(xs, ys, i);
      if result || (!result && !equal) { return; }
      i := i + 1;
    }
    GreaterFrom(xs, ys, |ls|);
    result := false;
  }

  lemma {:induction false} ValueHasType(v: Vector, pos: nat)
    requires VectorOk(v) && pos < |v.nulls|
    ensures HasType(ValueAt(v, pos), TypeOf(v)) && HasType(Stored(v, pos), TypeOf(v))
    decreases v, 0
  {
    match v
    case LeafVector(_, values) => assert Stored(v, pos) == Leaf(values[pos]);
    case ListVector(_, entries, data) =>
      var elems := Slice(data, entries[pos].offset, entries[pos].size);
      SliceHasType(data, entries[pos].offset, entries[pos].size, 0);
      assert elems[0..] == elems;
      assert Stored(v, pos) == List(elems);
    case StructVector(_, columns) =>
      AcrossHasTypes(columns, pos, 0);
      assert Across(columns, pos)[0..] == Across(columns, pos) && TypeOf(v).fields[0..] == TypeOf(v).fields;
      assert Stored(v, pos) == Struct(Across(columns, pos));
  }

  lemma {:induction false} SliceHasType(data: Vector, offset: nat, size: nat, i: nat)
    requires VectorOk(data) && offset + size <= |data.nulls| && i <= size
    ensures AllHaveType(Slice(data, offset, size)[i..], TypeOf(data))
    decreases data, size - i + 1
  {
    if i < size {
      ValueHasType(data, offset + i);
      SliceHasType(data, offset, size, i + 1);
      assert Slice(data, offset, size)[i..][1..] == Slice(data, offset, size)[i + 1..];
    }
  }

  lemma {:induction false} AcrossHasTypes(columns: seq<Vector>, pos: nat, i: nat)
    requires (forall k :: 0 <= k < |columns| ==> VectorOk(columns[k]) && pos < |columns[k].nulls|) && i <= |columns|
    ensures HaveTypes(Across(columns, pos)[i..],
                      seq(|columns|, k requires 0 <= k < |columns| => TypeOf(columns[k]))[i..])
    decreases columns, |columns| - i
  {
    if i < |columns| {
      ValueHasType(columns[i], pos);
      AcrossHasTypes(columns, pos, i + 1);
      var ts := seq(|columns|, k requires 0 <= k < |columns| => TypeOf(columns[k]));
      assert Across(columns, pos)[i..][1..] == Across(columns, pos)[i + 1..] && ts[i..][1..] == ts[i + 1..];
    }
  }

  /** Comparing any two positions of same-typed vectors: exactly one of greater, less and equal. */
  lemma {:induction false} VectorTrichotomy(l: Vector, p: nat, r: Vector, q: nat)
    requires Comparable(l, p, r, q)
    ensures OneHolds(Greater(ValueAt(l, p), ValueAt(r, q)), Greater(ValueAt(r, q), ValueAt(l, p)),
                     ValueAt(l, p) == ValueAt(r, q))
  {
    ValueHasType(l, p);
    ValueHasType(r, q);
    Trichotomy(ValueAt(l, p), ValueAt(r, q), TypeOf(l));
  }
}
