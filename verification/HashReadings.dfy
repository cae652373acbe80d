/** What the hash of a position reads, and when equal values hash equally. */
module HashReadings {
  import opened NestedValues
  import opened VectorHash

  // ----- the hash of one value -----

  function HashOf(h: Hashing, v: Value): nat
    decreases v, 0
  {
    match v
    case Null => NULL_HASH
    case Leaf(x) => h.leaf(x)
    case List(elems) => HashElems(h, elems, |elems|)
    case Struct(fields) => if fields == [] then NULL_HASH else HashFields(h, fields, |fields|)
  }

  /** The first `n` elements, combined from the left onto the hash of null. */
  function HashElems(h: Hashing, vs: seq<Value>, n: nat): nat
    requires n <= |vs|
    decreases vs, n
  {
    if n == 0 then NULL_HASH else h.combine(HashElems(h, vs, n - 1), HashOf(h, vs[n - 1]))
  }

  /** The first `n` fields, each combined with what comes before. */
  function HashFields(h: Hashing, vs: seq<Value>, n: nat): nat
    requires 0 < n <= |vs|
    decreases vs, n
  {
    if n == 1 then HashOf(h, vs[0]) else h.combine(HashOf(h, vs[n - 1]), HashFields(h, vs, n - 1))
  }

  /** A longer list hashes its last element onto the hash of the others, a longer struct the others onto its
      last field; an empty list hashes like null, a struct with one field like that field. */
  lemma {:induction false} HashLaws(h: Hashing, vs: seq<Value>, v: Value)
    ensures HashOf(h, Null) == HashOf(h, List([])) == NULL_HASH
    ensures HashOf(h, List(vs + [v])) == h.combine(HashOf(h, List(vs)), HashOf(h, v))
    ensures HashOf(h, Struct([v])) == HashOf(h, v)
    ensures vs != [] ==> HashOf(h, Struct(vs + [v])) == h.combine(HashOf(h, v), HashOf(h, Struct(vs)))
  {
    HashPrefix(h, vs, [v], |vs|);
  }

  lemma {:induction false} HashPrefix(h: Hashing, vs: seq<Value>, more: seq<Value>, n: nat)
    requires n <= |vs|
    ensures HashElems(h, vs + more, n) == HashElems(h, vs, n)
    ensures n > 0 ==> HashFields(h, vs + more, n) == HashFields(h, vs, n)
  {
    if n > 0 { HashPrefix(h, vs, more, n - 1); }
  }

  // ----- what the hash reads -----

  /** The value a hash reads at a position: a struct's own null bit is not read, and a null list is as
      good as an empty one. */
  ghost function Read(v: Vector, pos: nat): Value
    requires VectorOk(v) && pos < |v.nulls|
    decreases v, 0
  {
    match v
    case LeafVector(nulls, values) => if nulls[pos] then Null else Leaf(values[pos])
    case ListVector(nulls, entries, data) =>
      List(if nulls[pos] then [] else ReadSlice(data, entries[pos].offset, entries[pos].size))
    case StructVector(_, columns) => Struct(ReadAcross(columns, pos))
  }

  ghost function ReadSlice(data: Vector, offset: nat, size: nat): (r: seq<Value>)
    requires VectorOk(data) && offset + size <= |data.nulls|
    ensures |r| == size
    decreases data, 1
  {
    seq(size, i requires 0 <= i < size => Read(data, offset + i))
  }

  ghost function ReadAcross(columns: seq<Vector>, pos: nat): (r: seq<Value>)
    requires forall i :: 0 <= i < |columns| ==> VectorOk(columns[i]) && pos < |columns[i].nulls|
    ensures |r| == |columns|
    decreases columns
  {
    seq(|columns|, i requires 0 <= i < |columns| => Read(columns[i], pos))
  }

  /** The hash of a position is the hash of what is read there. */
  lemma {:induction false} RowHashIsHash(h: Hashing, v: Vector, pos: nat)
    requires VectorOk(v) && pos < |v.nulls|
    ensures RowHash(h, v, pos) == HashOf(h, Read(v, pos))
    decreases v, 0
  {
    match v
    case LeafVector(_, values) =>
    case ListVector(nulls, entries, data) =>
      if !nulls[pos] {
        var vs := ReadSlice(data, entries[pos].offset, entries[pos].size);
        SliceHash(h, data, entries[pos].offset, vs, entries[pos].size);
      }
    case StructVector(_, columns) => AcrossHash(h, columns, pos, ReadAcross(columns, pos), |columns|);
  }

  lemma {:induction false} SliceHash(h: Hashing, data: Vector, offset: nat, vs: seq<Value>, n: nat)
    requires VectorOk(data) && n <= |vs| && offset + |vs| <= |data.nulls| && vs == ReadSlice(data, offset, |vs|)
    ensures HashSlice(h, data, offset, n) == HashElems(h, vs, n)
    decreases data, n + 1
  {
    if n > 0 {
      SliceHash(h, data, offset, vs, n - 1);
      RowHashIsHash(h, data, offset + n - 1);
    }
  }

  lemma {:induction false} AcrossHash(h: Hashing, columns: seq<Vector>, pos: nat, vs: seq<Value>, n: nat)
    requires 0 < n <= |columns| && forall i :: 0 <= i < |columns| ==> VectorOk(columns[i]) && pos < |columns[i].nulls|
    requires vs == ReadAcross(columns, pos)
    ensures HashAcross(h, columns, pos, n) == HashFields(h, vs, n)
    decreases columns, n
  {
    RowHashIsHash(h, columns[n - 1], pos);
    if n > 1 { AcrossHash(h, columns, pos, vs, n - 1); }
  }

  // ----- a hash without collisions -----

  /** Read values of a type: no null lists and no null structs. */
  ghost predicate ReadType(v: Value, t: Type)
    decreases t, v
  {
    match t
    case LeafType => v.Null? || v.Leaf?
    case ListType(elem) => v.List? && forall i :: 0 <= i < |v.elems| ==> ReadType(v.elems[i], elem)
    case StructType(fields) =>
      v.Struct? && |v.fields| == |fields| > 0 && forall i :: 0 <= i < |fields| ==> ReadType(v.fields[i], fields[i])
  }

  lemma {:induction false} ReadHasType(v: Vector, pos: nat)
    requires VectorOk(v) && pos < |v.nulls|
    ensures ReadType(Read(v, pos), TypeOf(v))
    decreases v
  {
    match v
    case LeafVector(_, _) =>
    case ListVector(nulls, entries, data) =>
      if !nulls[pos] {
        var vs := ReadSlice(data, entries[pos].offset, entries[pos].size);
        forall i | 0 <= i < |vs| ensures ReadType(vs[i], TypeOf(data)) { ReadHasType(data, entries[pos].offset + i); }
      }
    case StructVector(_, columns) =>
      forall i | 0 <= i < |columns| ensures ReadType(Read(columns[i], pos), TypeOf(columns[i])) {
        ReadHasType(columns[i], pos);
      }
  }

  function Pair(a: nat, b: nat): nat {
    (a + b) * (a + b) + a
  }

  lemma {:induction false} SquareBelow(m: nat, n: nat)
    requires m < n
    ensures m * m + m < n * n
  {
    assert n * n >= (m + 1) * n >= (m + 1) * (m + 1) == m * m + 2 * m + 1;
  }

  lemma {:induction false} PairApart(a: nat, b: nat, c: nat, d: nat)
    requires Pair(a, b) == Pair(c, d)
    ensures a == c && b == d
  {
    if a + b < c + d {
      SquareBelow(a + b, c + d);
    } else if c + d < a + b {
      SquareBelow(c + d, a + b);
    }
  }

  /** Leaves and combinations are told apart, from each other and from null. */
  function Free(): Hashing {
    Hashing((x: int) => NULL_HASH + 1 + 2 * (if x >= 0 then 2 * x else -2 * x - 1),
            (a, b) => NULL_HASH + 2 + 2 * Pair(a, b))
  }

  lemma {:induction false} FreeApart(a: nat, b: nat, c: nat, d: nat, x: int, y: int)
    ensures Free().combine(a, b) == Free().combine(c, d) ==> a == c && b == d
    ensures Free().leaf(x) == Free().leaf(y) ==> x == y
    ensures NULL_HASH != Free().combine(a, b) && NULL_HASH != Free().leaf(x)
  {
    if Free().combine(a, b) == Free().combine(c, d) { PairApart(a, b, c, d); }
  }

  lemma {:induction false} FreeTells(v: Value, w: Value, t: Type)
    requires ReadType(v, t) && ReadType(w, t) && HashOf(Free(), v) == HashOf(Free(), w)
    ensures v == w
    decreases v, 0
  {
    match t
    case LeafType => FreeApart(0, 0, 0, 0, if v.Leaf? then v.x else 0, if w.Leaf? then w.x else 0);
                     FreeApart(0, 0, 0, 0, if w.Leaf? then w.x else 0, 0);
    case ListType(elem) => FreeTellsElems(v.elems, w.elems, elem, |v.elems|, |w.elems|);
    case StructType(fields) => FreeTellsFields(v.fields, w.fields, fields, |fields|);
  }

  lemma {:induction false} FreeTellsElems(vs: seq<Value>, ws: seq<Value>, t: Type, n: nat, m: nat)
    requires n <= |vs| && m <= |ws| && HashElems(Free(), vs, n) == HashElems(Free(), ws, m)
    requires (forall i :: 0 <= i < |vs| ==> ReadType(vs[i], t)) && (forall i :: 0 <= i < |ws| ==> ReadType(ws[i], t))
    ensures n == m && vs[..n] == ws[..m]
    decreases vs, n
  {
    if n > 0 && m > 0 {
      FreeApart(HashElems(Free(), vs, n - 1), HashOf(Free(), vs[n - 1]), HashElems(Free(), ws, m - 1),
                HashOf(Free(), ws[m - 1]), 0, 0);
      FreeTellsElems(vs, ws, t, n - 1, m - 1);
      FreeTells(vs[n - 1], ws[m - 1], t);
      assert vs[..n] == vs[..n - 1] + [vs[n - 1]] && ws[..m] == ws[..m - 1] + [ws[m - 1]];
    } else if n > 0 {
      FreeApart(HashElems(Free(), vs, n - 1), HashOf(Free(), vs[n - 1]), 0, 0, 0, 0);
    } else if m > 0 {
      FreeApart(HashElems(Free(), ws, m - 1), HashOf(Free(), ws[m - 1]), 0, 0, 0, 0);
    }
  }

  lemma {:induction false} FreeTellsFields(vs: seq<Value>, ws: seq<Value>, ts: seq<Type>, n: nat)
    requires |vs| == |ws| == |ts| && 0 < n <= |ts| && HashFields(Free(), vs, n) == HashFields(Free(), ws, n)
    requires forall i :: 0 <= i < |ts| ==> ReadType(vs[i], ts[i]) && ReadType(ws[i], ts[i])
    ensures vs[..n] == ws[..n]
    decreases vs, n
  {
    if n == 1 {
      FreeTells(vs[0], ws[0], ts[0]);
    } else {
      FreeApart(HashOf(Free(), vs[n - 1]), HashFields(Free(), vs, n - 1), HashOf(Free(), ws[n - 1]),
                HashFields(Free(), ws, n - 1), 0, 0);
      FreeTellsFields(vs, ws, ts, n - 1);
      FreeTells(vs[n - 1], ws[n - 1], ts[n - 1]);
      assert vs[..n] == vs[..n - 1] + [vs[n - 1]] && ws[..n] == ws[..n - 1] + [ws[n - 1]];
    }
  }

  // ----- 64 bits are enough for two values -----

  /** A hashing whose results are 64-bit numbers. */
  ghost predicate Is64(h: Hashing) {
    (forall x :: h.leaf(x) <= NULL_HASH) && (forall a, b :: h.combine(a, b) <= NULL_HASH)
  }

  /** The collision-free hashes of everything that is hashed on the way to the hash of a value. */
  ghost function Parts(v: Value): set<nat>
    decreases v, 0
  {
    {HashOf(Free(), v)} +
    match v
    case Null => {}
    case Leaf(_) => {}
    case List(elems) => ElemParts(elems, |elems|)
    case Struct(fields) => if fields == [] then {} else FieldParts(fields, |fields|)
  }

  ghost function ElemParts(vs: seq<Value>, n: nat): set<nat>
    requires n <= |vs|
    decreases vs, n
  {
    {HashElems(Free(), vs, n)} + if n == 0 then {} else ElemParts(vs, n - 1) + Parts(vs[n - 1])
  }

  ghost function FieldParts(vs: seq<Value>, n: nat): set<nat>
    requires 0 < n <= |vs|
    decreases vs, n
  {
    {HashFields(Free(), vs, n)} + Parts(vs[n - 1]) + if n == 1 then {} else FieldParts(vs, n - 1)
  }

  /** Codes for some numbers, and the numbers of the codes. */
  ghost predicate Coding(f: map<nat, nat>, g: map<nat, nat>) {
    && NULL_HASH in f && f[NULL_HASH] == NULL_HASH
    && (forall a :: a in f ==> f[a] <= NULL_HASH && f[a] in g && g[f[a]] == a)
  }

  function Code(f: map<nat, nat>, a: nat): nat {
    if a in f then f[a] else 0
  }

  function CombineCodes(f: map<nat, nat>, g: map<nat, nat>, a: nat, b: nat): nat {
    if a in g && b in g then Code(f, Free().combine(g[a], g[b])) else 0
  }

  /** Collision-free hashes, as far as they have codes, by their codes. */
  function Coded(f: map<nat, nat>, g: map<nat, nat>): Hashing {
    Hashing(x => Code(f, Free().leaf(x)),
            (a, b) => CombineCodes(f, g, a, b))
  }

  lemma {:induction false} CodedIs64(f: map<nat, nat>, g: map<nat, nat>)
    requires Coding(f, g)
    ensures Is64(Coded(f, g))
  {
    var h := Coded(f, g);
    forall x ensures h.leaf(x) <= NULL_HASH { assert h.leaf(x) == Code(f, Free().leaf(x)); }
    forall a, b ensures h.combine(a, b) <= NULL_HASH { assert h.combine(a, b) == CombineCodes(f, g, a, b); }
  }

  lemma {:induction false} CodedHash(f: map<nat, nat>, g: map<nat, nat>, v: Value)
    requires Coding(f, g) && Parts(v) <= f.Keys
    ensures HashOf(Free(), v) in f && HashOf(Coded(f, g), v) == f[HashOf(Free(), v)]
    decreases v, 0
  {
    assert HashOf(Free(), v) in Parts(v);
    match v
    case Null =>
    case Leaf(_) =>
    case List(elems) => CodedElems(f, g, elems, |elems|);
    case Struct(fields) => if fields != [] { CodedFields(f, g, fields, |fields|); }
  }

  lemma {:induction false} CodedElems(f: map<nat, nat>, g: map<nat, nat>, vs: seq<Value>, n: nat)
    requires Coding(f, g) && n <= |vs| && ElemParts(vs, n) <= f.Keys
    ensures HashElems(Free(), vs, n) in f && HashElems(Coded(f, g), vs, n) == f[HashElems(Free(), vs, n)]
    decreases vs, n
  {
    assert HashElems(Free(), vs, n) in ElemParts(vs, n);
    if n > 0 {
      CodedElems(f, g, vs, n - 1);
      CodedHash(f, g, vs[n - 1]);
    }
  }

  lemma {:induction false} CodedFields(f: map<nat, nat>, g: map<nat, nat>, vs: seq<Value>, n: nat)
    requires Coding(f, g) && 0 < n <= |vs| && FieldParts(vs, n) <= f.Keys
    ensures HashFields(Free(), vs, n) in f && HashFields(Coded(f, g), vs, n) == f[HashFields(Free(), vs, n)]
    decreases vs, n
  {
    assert HashFields(Free(), vs, n) in FieldParts(vs, n);
    CodedHash(f, g, vs[n - 1]);
    if n > 1 { CodedFields(f, g, vs, n - 1); }
  }

  /** The numbers of a finite set one after the other. */
  lemma {:induction false} Numbered(s: set<nat>) returns (f: map<nat, nat>, g: map<nat, nat>)
    ensures f.Keys == s && forall a :: a in f ==> f[a] < |s| && f[a] in g && g[f[a]] == a
  {
    if s == {} {
      f, g := map[], map[];
    } else {
      var a :| a in s;
      var n := |s| - 1;
      f, g := Numbered(s - {a});
      f, g := f[a := n], g[n := a];
    }
  }

  /** The parts of two values can be coded by 64-bit numbers if there are not more of them than numbers. */
  ghost predicate Codable(v: Value, w: Value) {
    |(Parts(v) + Parts(w)) - {NULL_HASH}| <= NULL_HASH
  }

  lemma {:induction false} CodingOf(v: Value, w: Value) returns (f: map<nat, nat>, g: map<nat, nat>)
    requires Codable(v, w)
    ensures Coding(f, g) && Parts(v) + Parts(w) <= f.Keys
  {
    f, g := Numbered((Parts(v) + Parts(w)) - {NULL_HASH});
    f, g := f[NULL_HASH := NULL_HASH], g[NULL_HASH := NULL_HASH];
  }

  /** A 64-bit hashing that tells two values of a type apart. */
  lemma {:induction false} TellsApart(v: Value, w: Value, t: Type) returns (h: Hashing)
    requires ReadType(v, t) && ReadType(w, t) && v != w && Codable(v, w)
    ensures Is64(h) && HashOf(h, v) != HashOf(h, w)
  {
    var f, g := CodingOf(v, w);
    h := Coded(f, g);
    CodedIs64(f, g);
    CodedHash(f, g, v);
    CodedHash(f, g, w);
    var a, b := HashOf(Free(), v), HashOf(Free(), w);
    if a == b { FreeTells(v, w, t); }
    assert g[f[a]] == a && g[f[b]] == b;
  }

  ghost predicate SameHash(h: Hashing, l: Vector, p: nat, r: Vector, q: nat)
    requires Comparable(l, p, r, q)
  {
    RowHash(h, l, p) == RowHash(h, r, q)
  }

  /** The two positions hash equally under every 64-bit hashing. */
  ghost predicate HashAlike(l: Vector, p: nat, r: Vector, q: nat)
    requires Comparable(l, p, r, q)
  {
    forall h :: Is64(h) ==> SameHash(h, l, p, r, q)
  }

  /** Two positions hash equally under every 64-bit hashing exactly if the same is read at both. If they
      differ, that takes no more parts than there are numbers. */
  lemma {:induction false} HashReadsIff(l: Vector, p: nat, r: Vector, q: nat)
    requires Comparable(l, p, r, q)
    ensures Read(l, p) == Read(r, q) ==> forall h :: SameHash(h, l, p, r, q)
    ensures Codable(Read(l, p), Read(r, q)) ==> (HashAlike(l, p, r, q) <==> Read(l, p) == Read(r, q))
  {
    if Read(l, p) == Read(r, q) {
      forall h ensures SameHash(h, l, p, r, q) {
        RowHashIsHash(h, l, p);
        RowHashIsHash(h, r, q);
      }
    } else if Codable(Read(l, p), Read(r, q)) {
      ReadHasType(l, p);
      ReadHasType(r, q);
      var h := TellsApart(Read(l, p), Read(r, q), TypeOf(l));
      RowHashIsHash(h, l, p);
      RowHashIsHash(h, r, q);
      assert !SameHash(h, l, p, r, q);
    }
  }

  // ----- equal values -----

  /** Wherever both have a null struct, the same is read of its fields. */
  ghost predicate NullsAlike(l: Vector, p: nat, r: Vector, q: nat)
    requires Comparable(l, p, r, q)
    decreases l, 0
  {
    SameKind(l, r);
    match l
    case LeafVector(_, _) => true
    case ListVector(nulls, entries, data) =>
      nulls[p] || r.nulls[q] || ElemsAlike(data, entries[p], r.data, r.entries[q])
    case StructVector(nulls, columns) =>
      if nulls[p] && r.nulls[q] then ReadAcross(columns, p) == ReadAcross(r.columns, q)
      else forall i :: 0 <= i < |columns| ==> NullsAlike(columns[i], p, r.columns[i], q)
  }

  ghost predicate ElemsAlike(l: Vector, a: Entry, r: Vector, b: Entry)
    requires VectorOk(l) && VectorOk(r) && TypeOf(l) == TypeOf(r)
    requires a.offset + a.size <= |l.nulls| && b.offset + b.size <= |r.nulls|
    decreases l, 2
  {
    forall i :: 0 <= i < a.size && i < b.size ==> ElemAlike(l, a, r, b, i)
  }

  ghost predicate ElemAlike(l: Vector, a: Entry, r: Vector, b: Entry, i: nat)
    requires VectorOk(l) && VectorOk(r) && TypeOf(l) == TypeOf(r)
    requires a.offset + i < |l.nulls| && b.offset + i < |r.nulls|
    decreases l, 1
  {
    NullsAlike(l, a.offset + i, r, b.offset + i)
  }

  lemma {:induction false} EqualReadIff(l: Vector, p: nat, r: Vector, q: nat)
    requires Comparable(l, p, r, q) && ValueAt(l, p) == ValueAt(r, q)
    ensures Read(l, p) == Read(r, q) <==> NullsAlike(l, p, r, q)
    decreases l, 0
  {
    SameKind(l, r);
    assert !Stored(l, p).Null? && !Stored(r, q).Null?;
    match l
    case LeafVector(_, _) =>
    case ListVector(nulls, entries, data) =>
      if !nulls[p] {
        assert List(Slice(data, entries[p].offset, entries[p].size)) ==
               List(Slice(r.data, r.entries[q].offset, r.entries[q].size));
        SlicesAlike(data, entries[p], r.data, r.entries[q]);
      }
    case StructVector(nulls, columns) =>
      if !nulls[p] {
        assert Struct(Across(columns, p)) == Struct(Across(r.columns, q));
        ColumnsAlike(columns, p, r.columns, q);
      }
  }

  lemma {:induction false} SlicesAlike(l: Vector, a: Entry, r: Vector, b: Entry)
    requires VectorOk(l) && VectorOk(r) && TypeOf(l) == TypeOf(r)
    requires a.offset + a.size <= |l.nulls| && b.offset + b.size <= |r.nulls|
    requires Slice(l, a.offset, a.size) == Slice(r, b.offset, b.size)
    ensures ReadSlice(l, a.offset, a.size) == ReadSlice(r, b.offset, b.size) <==> ElemsAlike(l, a, r, b)
    decreases l, 1
  {
    var xs, ys := ReadSlice(l, a.offset, a.size), ReadSlice(r, b.offset, b.size);
    assert |Slice(l, a.offset, a.size)| == a.size && |Slice(r, b.offset, b.size)| == b.size;
    forall i | 0 <= i < a.size ensures xs[i] == ys[i] <==> ElemAlike(l, a, r, b, i) {
      assert Slice(l, a.offset, a.size)[i] == Slice(r, b.offset, b.size)[i];
      EqualReadIff(l, a.offset + i, r, b.offset + i);
    }
    SameEach(xs, ys);
  }

  lemma {:induction false} SameEach<T>(xs: seq<T>, ys: seq<T>)
    requires |xs| == |ys|
    ensures xs == ys <==> forall i :: 0 <= i < |xs| ==> xs[i] == ys[i]
  {
  }

  lemma {:induction false} ColumnsAlike(ls: seq<Vector>, p: nat, rs: seq<Vector>, q: nat)
    requires |ls| == |rs|
    requires forall i :: 0 <= i < |ls| ==> VectorOk(ls[i]) && VectorOk(rs[i]) && p < |ls[i].nulls| && q < |rs[i].nulls|
    requires forall i :: 0 <= i < |ls| ==> Comparable(ls[i], p, rs[i], q)
    requires Across(ls, p) == Across(rs, q)
    ensures ReadAcross(ls, p) == ReadAcross(rs, q) <==> forall i :: 0 <= i < |ls| ==> NullsAlike(ls[i], p, rs[i], q)
    decreases ls
  {
    var xs, ys := ReadAcross(ls, p), ReadAcross(rs, q);
    forall i | 0 <= i < |ls| ensures xs[i] == ys[i] <==> NullsAlike(ls[i], p, rs[i], q) {
      assert Across(ls, p)[i] == Across(rs, q)[i];
      EqualReadIff(ls[i], p, rs[i], q);
    }
    SameEach(xs, ys);
  }

  /** Values that compare equal hash equally under every 64-bit hashing exactly if their null structs read
      alike. */
  lemma {:induction false} EqualHashEquallyIff(l: Vector, p: nat, r: Vector, q: nat)
    requires Comparable(l, p, r, q) && ValueAt(l, p) == ValueAt(r, q)
    ensures NullsAlike(l, p, r, q) ==> forall h :: SameHash(h, l, p, r, q)
    ensures Codable(Read(l, p), Read(r, q)) ==> (HashAlike(l, p, r, q) <==> NullsAlike(l, p, r, q))
  {
    HashReadsIff(l, p, r, q);
    EqualReadIff(l, p, r, q);
  }

  // ----- vectors whose null structs have only null fields -----

  /** Where a struct is null, so are all its fields. */
  ghost predicate CleanNulls(v: Vector) {
    match v
    case LeafVector(_, _) => true
    case ListVector(_, _, data) => CleanNulls(data)
    case StructVector(nulls, columns) =>
      forall i :: 0 <= i < |columns| ==>
        CleanNulls(columns[i]) &&
          forall p :: 0 <= p < |nulls| && p < |columns[i].nulls| && nulls[p] ==> columns[i].nulls[p]
  }

  lemma {:induction false} CleanReads(l: Vector, p: nat, r: Vector, q: nat)
    requires Comparable(l, p, r, q) && CleanNulls(l) && CleanNulls(r) && l.nulls[p] && r.nulls[q]
    ensures Read(l, p) == Read(r, q)
    decreases l
  {
    SameKind(l, r);
    if l.StructVector? {
      forall i | 0 <= i < |l.columns| ensures Read(l.columns[i], p) == Read(r.columns[i], q) {
        CleanReads(l.columns[i], p, r.columns[i], q);
      }
    }
  }

  lemma {:induction false} CleanAlike(l: Vector, p: nat, r: Vector, q: nat)
    requires Comparable(l, p, r, q) && CleanNulls(l) && CleanNulls(r)
    ensures NullsAlike(l, p, r, q)
    decreases l
  {
    SameKind(l, r);
    match l
    case LeafVector(_, _) =>
    case ListVector(nulls, entries, data) =>
      if !nulls[p] && !r.nulls[q] {
        forall i | 0 <= i < entries[p].size &&
          i < r.entries[q].size ensures ElemAlike(data, entries[p], r.data, r.entries[q], i) {
          CleanAlike(data, entries[p].offset + i, r.data, r.entries[q].offset + i);
        }
      }
    case StructVector(nulls, columns) =>
      if nulls[p] && r.nulls[q] {
        CleanReads(l, p, r, q);
      } else {
        forall i | 0 <= i < |columns| ensures NullsAlike(columns[i], p, r.columns[i], q) {
          CleanAlike(columns[i], p, r.columns[i], q);
        }
      }
  }

  /** Values that compare equal hash equally, in any two vectors of a type whose null structs are clean. */
  lemma {:induction false} EqualHashEqually(h: Hashing, l: Vector, p: nat, r: Vector, q: nat)
    requires Comparable(l, p, r, q) && CleanNulls(l) && CleanNulls(r) && ValueAt(l, p) == ValueAt(r, q)
    ensures RowHash(h, l, p) == RowHash(h, r, q)
  {
    CleanAlike(l, p, r, q);
    EqualHashEquallyIff(l, p, r, q);
    assert SameHash(h, l, p, r, q);
  }

  /** Without that, two null structs are equal and may hash differently. */
  lemma {:induction false} UncleanNullsDiffer(h: Hashing, x: int, y: int)
    requires h.leaf(x) != h.leaf(y)
    ensures var v := StructVector([true, true], [LeafVector([false, false], [x, y])]);
            VectorOk(v) && ValueAt(v, 0) == ValueAt(v, 1) && RowHash(h, v, 0) != RowHash(h, v, 1)
  {
    var column := LeafVector([false, false], [x, y]);
    assert RowHash(h, column, 0) == h.leaf(x) && RowHash(h, column, 1) == h.leaf(y);
  }
}
