/** Hashing nested vectors column by column, in chunks, against the hash of one position. */
module VectorHash {
  import opened NestedValues

  const NULL_HASH: nat := 0xffff_ffff_ffff_ffff

  /** The hash of a leaf and the combination of two hashes. */
  datatype Hashing = Hashing(leaf: int -> nat, combine: (nat, nat) -> nat)

  // ----- the hash of one position -----

  /** As the vectors are read: a struct's own null bit is not. */
  function RowHash(h: Hashing, v: Vector, pos: nat): nat
    requires VectorOk(v) && pos < |v.nulls|
    decreases v, 0
  {
    match v
    case LeafVector(nulls, values) => if nulls[pos] then NULL_HASH else h.leaf(values[pos])
    case ListVector(nulls, entries, data) =>
      if nulls[pos] then NULL_HASH else HashSlice(h, data, entries[pos].offset, entries[pos].size)
    case StructVector(_, columns) => HashAcross(h, columns, pos, |columns|)
  }

  function HashSlice(h: Hashing, data: Vector, offset: nat, n: nat): nat
    requires VectorOk(data) && offset + n <= |data.nulls|
    decreases data, n + 1
  {
    if n == 0 then NULL_HASH else h.combine(HashSlice(h, data, offset, n - 1), RowHash(h, data, offset + n - 1))
  }

  function HashAcross(h: Hashing, columns: seq<Vector>, pos: nat, n: nat): nat
    requires 0 < n <= |columns| && forall i :: 0 <= i < |columns| ==> VectorOk(columns[i]) && pos < |columns[i].nulls|
    decreases columns, n
  {
    var last := RowHash(h, columns[n - 1], pos);
    if n == 1 then last else h.combine(last, HashAcross(h, columns, pos, n - 1))
  }

  // ----- whole columns -----

  /** Different positions below `n`, one for each of `count` values. */
  ghost predicate Positions(at: seq<nat>, count: nat, n: nat) {
    && |at| == count
    && (forall i :: 0 <= i < count ==> at[i] < n)
    && (forall i, j :: 0 <= i < j < count ==> at[i] != at[j])
  }

  /** The hashes of the selected positions are in place, and nothing else has changed. */
  ghost predicate Hashed(h: Hashing, v: Vector, sel: seq<nat>, at: seq<nat>, before: seq<nat>, after: seq<nat>)
    requires VectorOk(v) && |at| == |sel| && forall i :: 0 <= i < |sel| ==> sel[i] < |v.nulls|
  {
    && |after| == |before|
    && (forall i :: 0 <= i < |sel| ==> at[i] < |after| && after[at[i]] == RowHash(h, v, sel[i]))
    && (forall p :: 0 <= p < |after| && p !in at ==> after[p] == before[p])
  }

  method ComputeHash(h: Hashing, v: Vector, sel: seq<nat>, result: array<nat>, at: seq<nat>, capacity: nat)
    requires VectorOk(v) && capacity > 0 && Positions(at, |sel|, result.Length) &&
             forall i :: 0 <= i < |sel| ==> sel[i] < |v.nulls|
    modifies result
    ensures Hashed(h, v, sel, at, old(result[..]), result[..])
    decreases v, 0
  {
    match v
    case LeafVector(_, _) => HashLeaves(h, v, sel, result, at);
    case ListVector(_, _, data) =>
      var hashes := HashData(h, data, capacity);
      FinishLists(h, v, sel, result, at, hashes);
    case StructVector(_, columns) => HashStructs(h, columns, |v.nulls|, sel, result, at, capacity);
      assert forall i :: 0 <= i < |sel| ==> RowHash(h, v, sel[i]) == HashAcross(h, columns, sel[i], |columns|);
  }

  method HashLeaves(h: Hashing, v: Vector, sel: seq<nat>, result: array<nat>, at: seq<nat>)
    requires VectorOk(v) && v.LeafVector? && Positions(at, |sel|, result.Length) &&
             forall i :: 0 <= i < |sel| ==> sel[i] < |v.nulls|
    modifies result
    ensures Hashed(h, v, sel, at, old(result[..]), result[..])
  {
    var i := 0;
    while i < |sel|
      invariant 0 <= i <= |sel|
      invariant forall k :: 0 <= k < i ==> result[at[k]] == RowHash(h, v, sel[k])
      invariant forall p :: 0 <= p < result.Length && p !in at ==> result[p] == old(result[p])
    {
      assert at[i] in at;
      result[at[i]] := if v.nulls[sel[i]] then NULL_HASH else h.leaf(v.values[sel[i]]);
      i := i + 1;
    }
  }

  /** The hashes of a whole data vector, a selection of at most `capacity` positions at a time. */
  method HashData(h: Hashing, data: Vector, capacity: nat) returns (hashes: array<nat>)
    requires VectorOk(data) && capacity > 0
    ensures fresh(hashes) && hashes.Length == |data.nulls| &&
            forall p :: 0 <= p < hashes.Length ==> hashes[p] == RowHash(h, data, p)
    decreases data, 2
  {
    hashes := new nat[|data.nulls|];
    var computed := 0;
    while computed < |data.nulls|
      invariant 0 <= computed <= |data.nulls| == hashes.Length && fresh(hashes)
      invariant forall p :: 0 <= p < computed ==> hashes[p] == RowHash(h, data, p)
    {
      var count := if capacity < |data.nulls| - computed then capacity else |data.nulls| - computed;
      var sel: seq<nat> := seq(count, i requires 0 <= i < count => computed + i);
      ghost var before := hashes[..];
      ComputeHash(h, data, sel, hashes, sel, capacity);
      forall p | 0 <= p < computed + count ensures hashes[p] == RowHash(h, data, p) {
        if p < computed {
          assert p !in sel && hashes[..][p] == before[p];
        } else {
          assert sel[p - computed] == p;
        }
      }
      computed := computed + count;
    }
  }

  method FinishLists(h: Hashing, v: Vector, sel: seq<nat>, result: array<nat>, at: seq<nat>, hashes: array<nat>)
    requires VectorOk(v) && v.ListVector? && Positions(at, |sel|, result.Length) &&
             forall i :: 0 <= i < |sel| ==> sel[i] < |v.nulls|
    requires hashes != result && hashes.Length == |v.data.nulls| &&
             forall p :: 0 <= p < hashes.Length ==> hashes[p] == RowHash(h, v.data, p)
    modifies result
    ensures Hashed(h, v, sel, at, old(result[..]), result[..])
  {
    var i := 0;
    while i < |sel|
      invariant 0 <= i <= |sel|
      invariant forall k :: 0 <= k < i ==> result[at[k]] == RowHash(h, v, sel[k])
      invariant forall p :: 0 <= p < result.Length && p !in at ==> result[p] == old(result[p])
    {
      assert at[i] in at;
      var hash := NULL_HASH;
      if !v.nulls[sel[i]] {
        var entry := v.entries[sel[i]];
        var j := 0;
        while j < entry.size
          invariant 0 <= j <= entry.size && hash == HashSlice(h, v.data, entry.offset, j)
        {
          hash := h.combine(hash, hashes[entry.offset + j]);
          j := j + 1;
        }
      }
      result[at[i]] := hash;
      i := i + 1;
    }
  }

  ghost predicate ColumnsOk(columns: seq<Vector>, n: nat) {
    |columns| > 0 && forall i :: 0 <= i < |columns| ==> VectorOk(columns[i]) && |columns[i].nulls| == n
  }

  /** The hashes of the first `n` fields are in place. */
  ghost predicate FieldsHashed(h: Hashing, columns: seq<Vector>, rows: nat, n: nat, sel: seq<nat>, at: seq<nat>,
                               before: seq<nat>, after: seq<nat>)
    requires ColumnsOk(columns, rows) && |at| == |sel| && forall i :: 0 <= i < |sel| ==> sel[i] < rows
  {
    && 0 < n <= |columns| && |after| == |before|
    && (forall i :: 0 <= i < |sel| ==> at[i] < |after| && after[at[i]] == HashAcross(h, columns, sel[i], n))
    && (forall p :: 0 <= p < |after| && p !in at ==> after[p] == before[p])
  }

  /** The hashes of one column, in a new vector. */
  method HashColumn(h: Hashing, column: Vector, sel: seq<nat>, capacity: nat) returns (tmp: array<nat>)
    requires VectorOk(column) && capacity > 0 && forall i :: 0 <= i < |sel| ==> sel[i] < |column.nulls|
    ensures fresh(tmp) && tmp.Length == |sel| && forall k :: 0 <= k < |sel| ==> tmp[k] == RowHash(h, column, sel[k])
    decreases column, 2
  {
    tmp := new nat[|sel|];
    var tmpSel: seq<nat> := seq(|sel|, k requires 0 <= k < |sel| => k);
    ComputeHash(h, column, sel, tmp, tmpSel, capacity);
    assert forall k :: 0 <= k < |sel| ==> tmpSel[k] == k && tmp[..][tmpSel[k]] == tmp[k];
  }

  method HashStructs(h: Hashing, columns: seq<Vector>, rows: nat, sel: seq<nat>, result: array<nat>, at: seq<nat>,
                     capacity: nat)
    requires ColumnsOk(columns, rows) && capacity > 0 && Positions(at, |sel|, result.Length) &&
             forall i :: 0 <= i < |sel| ==> sel[i] < rows
    modifies result
    ensures FieldsHashed(h, columns, rows, |columns|, sel, at, old(result[..]), result[..])
    decreases columns
  {
    ComputeHash(h, columns[0], sel, result, at, capacity);
    assert FieldsHashed(h, columns, rows, 1, sel, at, old(result[..]), result[..]);
    var i := 1;
    while i < |columns|
      invariant 1 <= i <= |columns| && FieldsHashed(h, columns, rows, i, sel, at, old(result[..]), result[..])
    {
      var tmp := HashColumn(h, columns[i], sel, capacity);
      CombineField(h, columns, rows, i, sel, result, at, tmp, old(result[..]));
      i := i + 1;
    }
  }

  method CombineField(h: Hashing, columns: seq<Vector>, rows: nat, n: nat, sel: seq<nat>, result: array<nat>,
                      at: seq<nat>, tmp: array<nat>,
                      ghost start: seq<nat>)
    requires ColumnsOk(columns, rows) && Positions(at, |sel|, result.Length) &&
             (forall i :: 0 <= i < |sel| ==> sel[i] < rows)
    requires n < |columns| && FieldsHashed(h, columns, rows, n, sel, at, start, result[..])
    requires tmp != result && tmp.Length == |sel| &&
             forall k :: 0 <= k < |sel| ==> tmp[k] == RowHash(h, columns[n], sel[k])
    modifies result
    ensures FieldsHashed(h, columns, rows, n + 1, sel, at, start, result[..])
  {
    ghost var was := result[..];
    var k := 0;
    while k < |sel|
      invariant 0 <= k <= |sel|
      invariant forall i :: 0 <= i < |sel| ==>
                  result[at[i]] == if i < k then h.combine(tmp[i], was[at[i]]) else was[at[i]]
      invariant forall p :: 0 <= p < result.Length && p !in at ==> result[p] == was[p]
    {
      assert at[k] in at;
      result[at[k]] := h.combine(tmp[k], result[at[k]]);
      k := k + 1;
    }
    forall i | 0 <= i < |sel| ensures result[at[i]] == HashAcross(h, columns, sel[i], n + 1) {
      assert was[at[i]] == HashAcross(h, columns, sel[i], n);
    }
  }
}
