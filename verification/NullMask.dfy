/** Bit-packed null masks: words of 64 bits, the lowest bit first, that stand for a plain sequence of
    flags. */
module NullMask {

  // ----- words -----

  type Word = w: seq<bool> | |w| == 64 witness seq(64, _ => false)

  function And(a: Word, b: Word): Word { seq(64, k requires 0 <= k < 64 => a[k] && b[k]) }
  function Or(a: Word, b: Word): Word { seq(64, k requires 0 <= k < 64 => a[k] || b[k]) }
  function Not(a: Word): Word { seq(64, k requires 0 <= k < 64 => !a[k]) }
  function ShiftLeft(a: Word, n: nat): Word { seq(64, k requires 0 <= k < 64 => k >= n && a[k - n]) }
  function ShiftRight(a: Word, n: nat): Word { seq(64, k requires 0 <= k < 64 => k + n < 64 && a[k + n]) }

  /** The lowest `n` bits set. */
  function LowerMask(n: nat): Word { seq(64, k requires 0 <= k < 64 => k < n) }
  /** The highest `n` bits set. */
  function HighMask(n: nat): Word { seq(64, k requires 0 <= k < 64 => k >= 64 - n) }

  function Zero(): Word { LowerMask(0) }

  // ----- masks as flags -----

  /** Bit number `p` of a mask. */
  predicate Bit(ws: seq<Word>, p: nat)
    requires p < 64 * |ws|
  {
    ws[p / 64][p % 64]
  }

  /** Positions are 32-bit numbers where single bits are read or written. */
  const MAX_BITS := 0x1_0000_0000

  /** `after` is `before` with `n` bits from `dst` on replaced by the bits of `source` from `src` on,
      inverted or not. */
  ghost predicate Copied(before: seq<Word>, after: seq<Word>, source: seq<Word>, src: nat, dst: nat, n: nat,
                         invert: bool) {
    && |after| == |before| && src + n <= 64 * |source| && dst + n <= 64 * |before|
    && forall p {:trigger Bit(after, p)} :: 0 <= p < 64 * |before| ==>
         Bit(after, p) == if dst <= p < dst + n then Bit(source, src + p - dst) != invert else Bit(before, p)
  }

  /** Some bit of a range is set (or, inverted, is not). */
  ghost predicate AnyBit(ws: seq<Word>, from: nat, n: nat, invert: bool)
    requires from + n <= 64 * |ws|
  {
    exists p {:trigger Bit(ws, p)} :: from <= p < from + n && Bit(ws, p) != invert
  }

  lemma {:induction false} CopiedNone(ws: seq<Word>, source: seq<Word>, src: nat, dst: nat, invert: bool)
    requires src <= 64 * |source| && dst <= 64 * |ws|
    ensures Copied(ws, ws, source, src, dst, 0, invert)
  {
  }

  /** Copying two adjacent ranges copies the whole. */
  lemma {:induction false} CopiedTwice(a: seq<Word>, b: seq<Word>, c: seq<Word>, source: seq<Word>, src: nat, dst: nat,
                                       n: nat, m: nat, invert: bool)
    requires Copied(a, b, source, src, dst, n, invert) && Copied(b, c, source, src + n, dst + n, m, invert)
    ensures Copied(a, c, source, src, dst, n + m, invert)
  {
    forall p | 0 <= p < 64 * |a|
      ensures Bit(c, p) == if dst <= p < dst + (n + m) then Bit(source, src + p - dst) != invert else Bit(a, p)
    {
      assert Bit(b, p) == if dst <= p < dst + n then Bit(source, src + p - dst) != invert else Bit(a, p);
    }
  }

  lemma {:induction false} AnyBitTwice(ws: seq<Word>, from: nat, n: nat, m: nat, invert: bool)
    requires from + n + m <= 64 * |ws|
    ensures AnyBit(ws, from, n + m, invert) <==> AnyBit(ws, from, n, invert) || AnyBit(ws, from + n, m, invert)
  {
  }

  // ----- single bits -----

  method IsNull(entries: array<Word>, pos: nat) returns (b: bool)
    requires pos < 64 * entries.Length && pos < MAX_BITS
    ensures b == Bit(entries[..], pos)
  {
    var at := pos % MAX_BITS;
    b := And(entries[at / 64], ShiftLeft(LowerMask(1), at % 64)) != Zero();
    SingleBit(entries[at / 64], at % 64);
  }

  lemma {:induction false} SingleBit(w: Word, k: nat)
    requires k < 64
    ensures And(w, ShiftLeft(LowerMask(1), k)) != Zero() <==> w[k]
  {
    var a := And(w, ShiftLeft(LowerMask(1), k));
    assert a[k] == w[k];
    if !w[k] { assert a == Zero(); }
  }

  ghost predicate RangeSet(before: seq<Word>, after: seq<Word>, offset: nat, n: nat, isNull: bool) {
    && |after| == |before|
    && forall p {:trigger Bit(after, p)} :: 0 <= p < 64 * |before| ==>
         Bit(after, p) == if offset <= p < offset + n then isNull else Bit(before, p)
  }

  /** A word with its bits from `from` up to `to` set or cleared. */
  ghost predicate WordSet(before: Word, after: Word, from: nat, to: nat, isNull: bool) {
    forall k :: 0 <= k < 64 ==> after[k] == if from <= k < to then isNull else before[k]
  }

  method SetNull(entries: array<Word>, pos: nat, isNull: bool)
    requires pos < 64 * entries.Length && pos < MAX_BITS
    modifies entries
    ensures RangeSet(old(entries[..]), entries[..], pos, 1, isNull)
  {
    var at := pos % MAX_BITS;
    var entry, bit := at / 64, at % 64;
    ghost var before := entries[..];
    SingleMask(before[entry], bit, isNull);
    if isNull {
      entries[entry] := Or(entries[entry], ShiftLeft(LowerMask(1), bit));
    } else {
      entries[entry] := And(entries[entry], Not(ShiftLeft(LowerMask(1), bit)));
    }
    assert entries[..] == before[entry := entries[entry]];
    OneWordSet(before, entry, bit, bit + 1, isNull, entries[entry]);
  }

  lemma {:induction false} SingleMask(w: Word, k: nat, isNull: bool)
    requires k < 64
    ensures WordSet(w, if isNull then Or(w, ShiftLeft(LowerMask(1), k)) else And(w, Not(ShiftLeft(LowerMask(1), k))),
                    k, k + 1, isNull)
  {
  }

  lemma {:induction false} OneWordSet(before: seq<Word>, entry: nat, from: nat, to: nat, isNull: bool, w: Word)
    requires entry < |before| && from <= to <= 64 && WordSet(before[entry], w, from, to, isNull)
    ensures RangeSet(before, before[entry := w], 64 * entry + from, to - from, isNull)
  {
    var after := before[entry := w];
    forall p | 0 <= p < 64 * |before|
      ensures Bit(after, p) == if 64 * entry + from <= p < 64 * entry + to then isNull else Bit(before, p)
    {
      assert Bit(after, p) == after[p / 64][p % 64];
    }
  }

  // ----- one word of an unaligned copy -----

  /** The bits of `w` from `s` on, moved to `d` and inverted or not; all other bits clear. */
  function Moved(w: Word, s: nat, d: nat, n: nat, invert: bool): Word
    requires s + n <= 64 && d + n <= 64
  {
    seq(64, k requires 0 <= k < 64 => d <= k < d + n && w[s + k - d] != invert)
  }

  function Inverted(w: Word, invert: bool): Word {
    if invert then Not(w) else w
  }

  lemma {:induction false} MovedRight(w: Word, s: nat, d: nat, n: nat, invert: bool)
    requires d < s && s + n <= 64
    ensures And(ShiftRight(And(Inverted(w, invert), Not(HighMask(64 - (s + n)))), s - d), Not(LowerMask(d))) ==
            Moved(w, s, d, n, invert)
  {
  }

  lemma {:induction false} MovedLeft(w: Word, s: nat, d: nat, n: nat, invert: bool)
    requires s < d && d + n <= 64
    ensures And(ShiftLeft(And(Inverted(w, invert), Not(LowerMask(s))), d - s), Not(HighMask(64 - (d + n)))) ==
            Moved(w, s, d, n, invert)
  {
  }

  lemma {:induction false} MovedHere(w: Word, d: nat, n: nat, invert: bool)
    requires d + n <= 64
    ensures And(And(Inverted(w, invert), Not(LowerMask(d))), Not(HighMask(64 - (d + n)))) == Moved(w, d, d, n, invert)
  {
  }

  function Cleared(w: Word, d: nat, n: nat): Word {
    And(w, Not(ShiftLeft(LowerMask(n), d)))
  }

  /** A word with the moved bits in place of its own. */
  function Merged(old_: Word, moved: Word, d: nat, n: nat): Word {
    if moved != Zero() then Or(Cleared(old_, d, n), moved) else Cleared(old_, d, n)
  }

  lemma {:induction false} MergedBits(old_: Word, w: Word, s: nat, d: nat, n: nat, invert: bool)
    requires s + n <= 64 && d + n <= 64
    ensures var m := Merged(old_, Moved(w, s, d, n, invert), d, n);
            forall k :: 0 <= k < 64 ==> m[k] == if d <= k < d + n then w[s + k - d] != invert else old_[k]
    ensures Moved(w, s, d, n, invert) != Zero() <==> exists k :: s <= k < s + n && w[k] != invert
  {
    var moved := Moved(w, s, d, n, invert);
    if exists k :: s <= k < s + n && w[k] != invert {
      var k :| s <= k < s + n && w[k] != invert;
      assert moved[d + k - s];
    } else {
      assert moved == Zero();
    }
  }

  /** Replacing bits of one word is a copy of a range within it. */
  lemma {:induction false} WordCopied(before: seq<Word>, source: seq<Word>, sEntry: nat, s: nat, dEntry: nat, d: nat,
                                      n: nat, invert: bool)
    requires sEntry < |source| && dEntry < |before| && s + n <= 64 && d + n <= 64
    ensures var moved := Moved(source[sEntry], s, d, n, invert);
            && Copied(before, before[dEntry := Merged(before[dEntry], moved, d, n)], source, 64 * sEntry + s,
                      64 * dEntry + d, n, invert)
            && (moved != Zero() <==> AnyBit(source, 64 * sEntry + s, n, invert))
  {
    var moved := Moved(source[sEntry], s, d, n, invert);
    var after := before[dEntry := Merged(before[dEntry], moved, d, n)];
    MergedBits(before[dEntry], source[sEntry], s, d, n, invert);
    var src, dst := 64 * sEntry + s, 64 * dEntry + d;
    forall p | 0 <= p < 64 * |before|
      ensures Bit(after, p) == if dst <= p < dst + n then Bit(source, src + p - dst) != invert else Bit(before, p)
    {
      if dst <= p < dst + n {
        assert p / 64 == dEntry && p % 64 == p - 64 * dEntry;
        assert (src + p - dst) / 64 == sEntry && (src + p - dst) % 64 == s + (p - dst);
      }
    }
    if moved != Zero() {
      var k :| s <= k < s + n && source[sEntry][k] != invert;
      assert Bit(source, 64 * sEntry + k) != invert;
    } else {
      forall p | src <= p < src + n ensures Bit(source, p) == invert {
        assert p / 64 == sEntry && p % 64 == p - 64 * sEntry;
      }
    }
  }

  // ----- copying -----

  ghost predicate Fits(source: seq<Word>, src: nat, target: seq<Word>, dst: nat, n: nat) {
    src + n <= 64 * |source| && dst + n <= 64 * |target|
  }

  function Min(a: nat, b: nat): nat { if a < b then a else b }

  /** How many bits one turn copies: up to the end of the word that ends first. */
  function TurnLength(s: nat, d: nat, left: nat): (n: nat)
    requires s < 64 && d < 64
    ensures n <= left && s + n <= 64 && d + n <= 64 && (left > 0 ==> n > 0)
    ensures n < left ==> s + n == 64 || d + n == 64
  {
    if d < s then Min(64 - s, left) else Min(64 - d, left)
  }

  /** The bits one turn copies, by masks and shifts. */
  method TurnWord(w: Word, s: nat, d: nat, left: nat, invert: bool) returns (n: nat, entry: Word)
    requires s < 64 && d < 64
    ensures n == TurnLength(s, d, left) && entry == Moved(w, s, d, n, invert)
  {
    entry := if invert then Not(w) else w;
    if d < s {
      n := Min(64 - s, left);
      entry := And(entry, Not(HighMask(64 - (s + n))));
      entry := ShiftRight(entry, s - d);
      entry := And(entry, Not(LowerMask(d)));
      MovedRight(w, s, d, n, invert);
    } else if d > s {
      n := Min(64 - d, left);
      entry := And(entry, Not(LowerMask(s)));
      entry := ShiftLeft(entry, d - s);
      entry := And(entry, Not(HighMask(64 - (d + n))));
      MovedLeft(w, s, d, n, invert);
    } else {
      n := Min(64 - d, left);
      entry := And(entry, Not(LowerMask(s)));
      entry := And(entry, Not(HighMask(64 - (d + n))));
      MovedHere(w, d, n, invert);
    }
  }

  /** One turn: the bits up to the end of the word that ends first. */
  method CopyTurn(source: array<Word>, sEntry: nat, s: nat, target: array<Word>, dEntry: nat, d: nat, left: nat,
                  invert: bool)
    returns (count: nat, anySet: bool)
    requires source != target && s < 64 && d < 64 &&
             Fits(source[..], 64 * sEntry + s, target[..], 64 * dEntry + d, left) && left > 0
    modifies target
    ensures count == TurnLength(s, d, left)
    ensures Copied(old(target[..]), target[..], source[..], 64 * sEntry + s, 64 * dEntry + d, count, invert)
    ensures anySet <==> AnyBit(source[..], 64 * sEntry + s, count, invert)
  {
    var entry;
    count, entry := TurnWord(source[sEntry], s, d, left, invert);
    ghost var before := target[..];
    WordCopied(before, source[..], sEntry, s, dEntry, d, count, invert);
    target[dEntry] := And(target[dEntry], Not(ShiftLeft(LowerMask(count), d)));
    anySet := false;
    if entry != Zero() {
      target[dEntry] := Or(target[dEntry], entry);
      anySet := true;
    }
    assert target[..] == before[dEntry := Merged(before[dEntry], entry, d, count)];
  }

  /** Word by word, whatever the offsets. */
  method CopyUnaligned(source: array<Word>, src: nat, target: array<Word>, dst: nat, n: nat, invert: bool)
    returns (anySet: bool)
    requires source != target && Fits(source[..], src, target[..], dst, n)
    modifies target
    ensures Copied(old(target[..]), target[..], source[..], src, dst, n, invert)
    ensures anySet <==> AnyBit(source[..], src, n, invert)
  {
    anySet := false;
    var bitPos := 0;
    var sEntry: nat, s: nat, dEntry: nat, d: nat := src / 64, src % 64, dst / 64, dst % 64;
    CopiedNone(target[..], source[..], src, dst, invert);
    while bitPos < n
      invariant 0 <= bitPos <= n && s < 64 && d < 64
      invariant bitPos < n ==> 64 * sEntry + s == src + bitPos && 64 * dEntry + d == dst + bitPos
      invariant Copied(old(target[..]), target[..], source[..], src, dst, bitPos, invert)
      invariant anySet <==> AnyBit(source[..], src, bitPos, invert)
    {
      ghost var before := target[..];
      var count, more := CopyTurn(source, sEntry, s, target, dEntry, d, n - bitPos, invert);
      CopiedTwice(old(target[..]), before, target[..], source[..], src, dst, bitPos, count, invert);
      AnyBitTwice(source[..], src, bitPos, count, invert);
      bitPos := bitPos + count;
      anySet := anySet || more;
      if d < s {
        sEntry, s, d := sEntry + 1, 0, d + count;
      } else if d > s {
        dEntry, d, s := dEntry + 1, 0, s + count;
      } else {
        sEntry, dEntry, s, d := sEntry + 1, dEntry + 1, 0, 0;
      }
    }
  }

  /** One byte of a mask. */
  method CopyByte(source: array<Word>, from: nat, target: array<Word>, to: nat) returns (nonZero: bool)
    requires source != target && Fits(source[..], 8 * from, target[..], 8 * to, 8)
    modifies target
    ensures Copied(old(target[..]), target[..], source[..], 8 * from, 8 * to, 8, false)
    ensures nonZero <==> AnyBit(source[..], 8 * from, 8, false)
  {
    var sEntry, s, dEntry, d := from / 8, 8 * (from % 8), to / 8, 8 * (to % 8);
    ghost var before := target[..];
    WordCopied(before, source[..], sEntry, s, dEntry, d, 8, false);
    var byte := Moved(source[sEntry], s, d, 8, false);
    nonZero := byte != Zero();
    target[dEntry] := Merged(target[dEntry], byte, d, 8);
    assert target[..] == before[dEntry := Merged(before[dEntry], byte, d, 8)];
  }

  method CopyBytes(source: array<Word>, from: nat, target: array<Word>, to: nat, count: nat) returns (nonZero: bool)
    requires source != target && Fits(source[..], 8 * from, target[..], 8 * to, 8 * count)
    modifies target
    ensures Copied(old(target[..]), target[..], source[..], 8 * from, 8 * to, 8 * count, false)
    ensures nonZero <==> AnyBit(source[..], 8 * from, 8 * count, false)
  {
    nonZero := false;
    var k := 0;
    CopiedNone(target[..], source[..], 8 * from, 8 * to, false);
    while k < count
      invariant 0 <= k <= count && Copied(old(target[..]), target[..], source[..], 8 * from, 8 * to, 8 * k, false)
      invariant nonZero <==> AnyBit(source[..], 8 * from, 8 * k, false)
    {
      ghost var before := target[..];
      var more := CopyByte(source, from + k, target, to + k);
      CopiedTwice(old(target[..]), before, target[..], source[..], 8 * from, 8 * to, 8 * k, 8, false);
      AnyBitTwice(source[..], 8 * from, 8 * k, 8, false);
      nonZero := nonZero || more;
      k := k + 1;
    }
  }

  /** Up to three bits are copied one by one. The flag is about the source bits as they are. */
  method CopyFew(source: array<Word>, src: nat, target: array<Word>, dst: nat, n: nat, invert: bool)
    returns (anyNull: bool)
    requires source != target && Fits(source[..], src, target[..], dst, n)
    requires src + n <= MAX_BITS && dst + n <= MAX_BITS
    modifies target
    ensures Copied(old(target[..]), target[..], source[..], src, dst, n, invert)
    ensures anyNull <==> AnyBit(source[..], src, n, false)
  {
    anyNull := false;
    var i := 0;
    CopiedNone(target[..], source[..], src, dst, invert);
    while i < n
      invariant 0 <= i <= n && Copied(old(target[..]), target[..], source[..], src, dst, i, invert)
      invariant anyNull <==> AnyBit(source[..], src, i, false)
    {
      var isNull := IsNull(source, src + i);
      ghost var before := target[..];
      SetNull(target, dst + i, isNull != invert);
      assert Copied(before, target[..], source[..], src + i, dst + i, 1, invert);
      CopiedTwice(old(target[..]), before, target[..], source[..], src, dst, i, 1, invert);
      AnyBitTwice(source[..], src, i, 1, false);
      assert AnyBit(source[..], src + i, 1, false) <==> isNull by { assert Bit(source[..], src + i) == isNull; }
      anyNull := anyNull || isNull;
      i := i + 1;
    }
  }

  /** Bits before the first byte border, whole bytes, and the bits behind the last border. */
  method CopyAligned(source: array<Word>, src: nat, target: array<Word>, dst: nat, n: nat) returns (anySet: bool)
    requires source != target && Fits(source[..], src, target[..], dst, n)
    requires src % 8 == dst % 8 && n >= 8 + src % 8
    modifies target
    ensures Copied(old(target[..]), target[..], source[..], src, dst, n, false)
    ensures anySet <==> AnyBit(source[..], src, n, false)
  {
    var first, any := CopyHead(source, src, target, dst);
    ghost var middle := target[..];
    var from, to, bytes := (src + first) / 8, (dst + first) / 8, (n - first) / 8;
    assert 8 * from == src + first && 8 * to == dst + first;
    var nonZero := CopyBytes(source, from, target, to, bytes);
    CopiedTwice(old(target[..]), middle, target[..], source[..], src, dst, first, 8 * bytes, false);
    AnyBitTwice(source[..], src, first, 8 * bytes, false);
    anySet := CopyRest(source, src, target, dst, n, first + bytes * 8, any || nonZero, old(target[..]));
  }

  lemma {:induction false} ToByteBorder(x: nat)
    ensures (x + (8 - x % 8)) % 8 == 0
  {
    assert x + (8 - x % 8) == 8 * (x / 8 + 1);
  }

  method CopyHead(source: array<Word>, src: nat, target: array<Word>, dst: nat) returns (first: nat, anySet: bool)
    requires source != target && src % 8 == dst % 8 && Fits(source[..], src, target[..], dst, 8 - src % 8)
    modifies target
    ensures first <= 8 - src % 8 && (src + first) % 8 == 0 && (dst + first) % 8 == 0
    ensures Copied(old(target[..]), target[..], source[..], src, dst, first, false)
    ensures anySet <==> AnyBit(source[..], src, first, false)
  {
    first, anySet := 0, false;
    CopiedNone(target[..], source[..], src, dst, false);
    ToByteBorder(src);
    ToByteBorder(dst);
    if src != 0 {
      first := 8 - src % 8;
      anySet := CopyUnaligned(source, src, target, dst, first, false);
    }
  }

  method CopyRest(source: array<Word>, src: nat, target: array<Word>, dst: nat, n: nat, done: nat, sofar: bool,
                  ghost start: seq<Word>)
    returns (anySet: bool)
    requires source != target && Fits(source[..], src, target[..], dst, n) && done <= n
    requires Copied(start, target[..], source[..], src, dst, done, false) &&
             (sofar <==> AnyBit(source[..], src, done, false))
    modifies target
    ensures Copied(start, target[..], source[..], src, dst, n, false)
    ensures anySet <==> AnyBit(source[..], src, n, false)
  {
    anySet := sofar;
    if n - done > 0 {
      ghost var before := target[..];
      var last := CopyUnaligned(source, src + done, target, dst + done, n - done, false);
      CopiedTwice(start, before, target[..], source[..], src, dst, done, n - done, false);
      AnyBitTwice(source[..], src, done, n - done, false);
      anySet := last || sofar;
    }
  }

  /** Copies a range, on one of three paths. The flag says whether a written bit is set, except that
      for up to three inverted bits it says whether a source bit is set. */
  method CopyNullMask(source: array<Word>, src: nat, target: array<Word>, dst: nat, n: nat, invert: bool)
    returns (anySet: bool)
    requires source != target && Fits(source[..], src, target[..], dst, n)
    requires n <= 3 ==> src + n <= MAX_BITS && dst + n <= MAX_BITS
    modifies target
    ensures Copied(old(target[..]), target[..], source[..], src, dst, n, invert)
    ensures anySet <==> AnyBit(source[..], src, n, invert && n > 3)
  {
    if n <= 3 {
      anySet := CopyFew(source, src, target, dst, n, invert);
    } else if !invert && src % 8 == dst % 8 && n >= 8 && n - src % 8 >= 8 {
      anySet := CopyAligned(source, src, target, dst, n);
    } else {
      anySet := CopyUnaligned(source, src, target, dst, n, invert);
    }
  }

  /** The flag of a short inverted copy is right exactly if nothing is copied or the source range is
      mixed. */
  lemma {:induction false} ShortInvertedFlag(ws: seq<Word>, from: nat, n: nat)
    requires from + n <= 64 * |ws|
    ensures (AnyBit(ws, from, n, false) <==> AnyBit(ws, from, n, true)) <==>
            n == 0 || (exists p, q :: from <= p < from + n && from <= q < from + n && Bit(ws, p) && !Bit(ws, q))
  {
    if n > 0 { assert Bit(ws, from) || !Bit(ws, from); }
  }

  // ----- setting a range -----

  /** Exactly the bits of the range get the value, whatever words it begins and ends in. */
  method SetNullRange(entries: array<Word>, offset: nat, n: nat, isNull: bool)
    requires offset + n <= 64 * entries.Length
    modifies entries
    ensures RangeSet(old(entries[..]), entries[..], offset, n, isNull)
  {
    if n == 0 { return; }
    var first, a := offset / 64, offset % 64;
    var last, b := (offset + n) / 64, (offset + n) % 64;
    ghost var before := entries[..];
    if last > first + 1 {
      var k := first + 1;
      while k < last
        invariant first < k <= last && entries.Length == |before|
        invariant forall j :: 0 <= j < entries.Length ==>
                    entries[j] == if first < j < k then (if isNull then LowerMask(64) else Zero()) else before[j]
      {
        entries[k] := if isNull then LowerMask(64) else Zero();
        k := k + 1;
      }
    }
    if first == last {
      if isNull {
        entries[first] := Or(entries[first], And(Not(LowerMask(a)), Not(HighMask(64 - b))));
      } else {
        entries[first] := And(entries[first], Or(LowerMask(a), HighMask(64 - b)));
      }
      assert WordSet(before[first], entries[first], a, b, isNull);
    } else {
      if isNull {
        entries[first] := Or(entries[first], Not(LowerMask(a)));
        if b > 0 { entries[last] := Or(entries[last], LowerMask(b)); }
      } else {
        entries[first] := And(entries[first], LowerMask(a));
        if b > 0 { entries[last] := And(entries[last], Not(LowerMask(b))); }
      }
      assert WordSet(before[first], entries[first], a, 64, isNull);
      assert b > 0 ==> WordSet(before[last], entries[last], 0, b, isNull);
    }
    assert forall j :: 0 <= j < entries.Length && j != first && (j != last || b == 0) ==>
             entries[j] == if first < j < last then (if isNull then LowerMask(64) else Zero()) else before[j];
    RangeOfWords(before, entries[..], offset, n, isNull);
  }

  lemma {:induction false} RangeOfWords(before: seq<Word>, after: seq<Word>, offset: nat, n: nat, isNull: bool)
    requires n > 0 && offset + n <= 64 * |before| && |after| == |before|
    requires var first, a, last, b := offset / 64, offset % 64, (offset + n) / 64, (offset + n) % 64;
             && WordSet(before[first], after[first], a, if first == last then b else 64, isNull)
             && (first < last && b > 0 ==> WordSet(before[last], after[last], 0, b, isNull))
             && forall j :: 0 <= j < |after| && j != first && (j != last || b == 0) ==>
                  after[j] == if first < j < last then (if isNull then LowerMask(64) else Zero()) else before[j]
    ensures RangeSet(before, after, offset, n, isNull)
  {
    forall p | 0 <= p < 64 * |before|
      ensures Bit(after, p) == if offset <= p < offset + n then isNull else Bit(before, p)
    {
      assert after[p / 64][p % 64] == Bit(after, p);
    }
  }

  // ----- smallest and greatest flag of a range -----

  ghost predicate AllBits(ws: seq<Word>, from: nat, n: nat, value: bool)
    requires from + n <= 64 * |ws|
  {
    forall p {:trigger Bit(ws, p)} :: from <= p < from + n ==> Bit(ws, p) == value
  }

  lemma {:induction false} AllBitsTwice(ws: seq<Word>, from: nat, n: nat, m: nat, value: bool)
    requires from + n + m <= 64 * |ws|
    ensures AllBits(ws, from, n + m, value) <==> AllBits(ws, from, n, value) && AllBits(ws, from + n, m, value)
  {
  }

  /** What a word says under the mask of its bits from `a` up to `b`. */
  lemma {:induction false} MaskedWord(ws: seq<Word>, entry: nat, a: nat, b: nat, mask: Word)
    requires entry < |ws| && a < b <= 64 && forall k :: 0 <= k < 64 ==> mask[k] == (a <= k < b)
    ensures And(ws[entry], mask) == Zero() <==> AllBits(ws, 64 * entry + a, b - a, false)
    ensures And(ws[entry], mask) == mask <==> AllBits(ws, 64 * entry + a, b - a, true)
  {
    var w, masked := ws[entry], And(ws[entry], mask);
    forall p | 64 * entry + a <= p < 64 * entry + b ensures Bit(ws, p) == masked[p - 64 * entry] {
      assert p / 64 == entry && p % 64 == p - 64 * entry;
    }
    forall k | a <= k < b ensures masked[k] == Bit(ws, 64 * entry + k) {
      assert (64 * entry + k) / 64 == entry && (64 * entry + k) % 64 == k;
    }
    if AllBits(ws, 64 * entry + a, b - a, false) { assert masked == Zero(); }
    if AllBits(ws, 64 * entry + a, b - a, true) { assert masked == mask; }
  }

  /** Whether all bits from `a` up to `b` of a word are set, and whether any is. */
  method WordMinMax(entries: array<Word>, entry: nat, a: nat, b: nat, mask: Word) returns (min: bool, max: bool)
    requires entry < entries.Length && a < b <= 64 && forall k :: 0 <= k < 64 ==> mask[k] == (a <= k < b)
    ensures min <==> AllBits(entries[..], 64 * entry + a, b - a, true)
    ensures max <==> !AllBits(entries[..], 64 * entry + a, b - a, false)
    ensures min ==> max
  {
    MaskedWord(entries[..], entry, a, b, mask);
    var masked := And(entries[entry], mask);
    if masked == Zero() {
      assert !mask[a] || masked != mask;
      min, max := false, false;
    } else if masked == mask {
      min, max := true, true;
    } else {
      min, max := false, true;
    }
  }

  /** Compares whole words with a baseline. */
  method AllWords(entries: array<Word>, from: nat, count: nat, value: bool) returns (all: bool)
    requires from + count <= entries.Length
    ensures all <==> AllBits(entries[..], 64 * from, 64 * count, value)
  {
    var baseline := if value then LowerMask(64) else Zero();
    var i := 0;
    while i < count
      invariant 0 <= i <= count && AllBits(entries[..], 64 * from, 64 * i, value)
    {
      FullWord(entries[..], from + i, value);
      AllBitsTwice(entries[..], 64 * from, 64 * i, 64, value);
      AllBitsTwice(entries[..], 64 * from, 64 * (i + 1), 64 * (count - i - 1), value);
      if entries[from + i] != baseline { return false; }
      i := i + 1;
    }
    all := true;
  }

  lemma {:induction false} FullWord(ws: seq<Word>, entry: nat, value: bool)
    requires entry < |ws|
    ensures ws[entry] == (if value then LowerMask(64) else Zero()) <==> AllBits(ws, 64 * entry, 64, value)
  {
    MaskedWord(ws, entry, 0, 64, LowerMask(64));
    assert And(ws[entry], LowerMask(64)) == ws[entry];
  }

  /** Whether all bits of a non-empty range are set, and whether any is. */
  method GetMinMax(entries: array<Word>, offset: nat, n: nat) returns (min: bool, max: bool)
    requires n > 0 && offset + n <= 64 * entries.Length
    ensures min <==> AllBits(entries[..], offset, n, true)
    ensures max <==> !AllBits(entries[..], offset, n, false)
  {
    var entry, a := offset / 64, offset % 64;
    if a + n <= 64 {
      min, max := WordMinMax(entries, entry, a, a + n, And(HighMask(64 - a), LowerMask(a + n)));
      return;
    }
    if a > 0 {
      min, max := WordMinMax(entries, entry, a, 64, HighMask(64 - a));
      AllBitsTwice(entries[..], offset, 64 - a, n - (64 - a), true);
      AllBitsTwice(entries[..], offset, 64 - a, n - (64 - a), false);
      if min != max { return false, true; }
      var restMin, restMax := RestMinMax(entries, entry + 1, n - (64 - a), min);
      min, max := min && restMin, max || restMax;
    } else {
      var first := And(entries[entry], ShiftLeft(LowerMask(1), 0)) != Zero();
      SingleBit(entries[entry], 0);
      assert Bit(entries[..], offset) == first;
      min, max := RestMinMax(entries, entry, n, first);
    }
  }

  /** The words from `entry` on, of which all before had the value `base`. */
  method RestMinMax(entries: array<Word>, entry: nat, n: nat, base: bool) returns (min: bool, max: bool)
    requires 64 * entry + n <= 64 * entries.Length
    ensures base ==> (min <==> AllBits(entries[..], 64 * entry, n, true)) && max
    ensures !base ==> (max <==> !AllBits(entries[..], 64 * entry, n, false)) && !min
  {
    var words := n / 64;
    var same := AllWords(entries, entry, words, base);
    AllBitsTwice(entries[..], 64 * entry, 64 * words, n % 64, base);
    if !same { return false, true; }
    if n % 64 > 0 {
      var lastMin, lastMax := WordMinMax(entries, entry + words, 0, n % 64, LowerMask(n % 64));
      min, max := if !lastMax then false else if lastMin then base else false,
                  if !lastMax then base else true;
    } else {
      min, max := base, base;
    }
  }
}
