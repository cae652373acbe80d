/** Substring search by packed words and sums of bytes, against the first match. */
module FindString {

  type Byte = bv8
  type Text = seq<Byte>

  predicate MatchAt(haystack: Text, needle: Text, k: nat) {
    k + |needle| <= |haystack| && haystack[k..k + |needle|] == needle
  }

  /** The least position of a match, or -1. */
  ghost predicate FirstMatch(haystack: Text, needle: Text, r: int) {
    if r < 0 then r == -1 && NoMatchBefore(haystack, needle, |haystack| + 1)
    else MatchAt(haystack, needle, r) && NoMatchBefore(haystack, needle, r)
  }

  ghost predicate NoMatchBefore(haystack: Text, needle: Text, n: nat) {
    forall k :: 0 <= k < n ==> !MatchAt(haystack, needle, k)
  }

  lemma {:induction false} NoMoreMatches(haystack: Text, needle: Text, n: nat)
    requires NoMatchBefore(haystack, needle, n) && n + |needle| > |haystack|
    ensures NoMatchBefore(haystack, needle, |haystack| + 1)
  {
  }

  // ----- a word of bytes, the first byte most significant -----

  /** Eight bits to the left: the first byte falls out. */
  function ShiftByte(w: Text): (r: Text)
    requires w != []
    ensures |r| == |w|
  {
    w[1..] + [0]
  }

  function OrAt(w: Text, k: nat, b: Byte): (r: Text)
    requires k < |w|
    ensures |r| == |w|
  {
    w[k := w[k] | b]
  }

  function Zeros(n: nat): (r: Text)
    ensures |r| == n
  {
    seq(n, _ => 0)
  }

  /** The first `n` bytes of a text in a word, zeros behind them. */
  method Pack(text: Text, n: nat, width: nat) returns (w: Text)
    requires n <= |text| && n <= width
    ensures w == text[..n] + Zeros(width - n)
  {
    w := Zeros(width);
    var i := 0;
    while i < n
      invariant 0 <= i <= n && w == text[..i] + Zeros(width - i)
    {
      assert (0 as Byte) | text[i] == text[i];
      assert w[i := text[i]] == text[..i + 1] + Zeros(width - (i + 1));
      w := OrAt(w, i, text[i]);
      i := i + 1;
    }
  }

  /** Needles shorter than a word of `width` bytes: a window rolls over the text, packed into a word. */
  method UnalignedFind(haystack: Text, needle: Text, width: nat, base: nat) returns (r: int)
    requires 0 < |needle| <= width
    ensures r >= 0 ==> r >= base
    ensures FirstMatch(haystack, needle, if r < 0 then r else r - base)
  {
    var n := |needle|;
    if n > |haystack| { return -1; }
    var needleEntry := Pack(needle, n, width);
    var entry := Pack(haystack, n, width);
    assert needle[..n] == needle && haystack[0..n] == haystack[..n];
    var offset := n;
    while offset < |haystack|
      invariant n <= offset <= |haystack| && needleEntry == needle + Zeros(width - n)
      invariant entry == haystack[offset - n..offset] + Zeros(width - n)
      invariant NoMatchBefore(haystack, needle, offset - n)
    {
      Packed(haystack, needle, offset - n, width);
      if entry == needleEntry { return base + offset - n; }
      NoMatchHere(haystack, needle, offset - n);
      Rolled(haystack, offset - n, n, width);
      entry := OrAt(ShiftByte(entry), n - 1, haystack[offset]);
      offset := offset + 1;
    }
    Packed(haystack, needle, offset - n, width);
    if entry == needleEntry { return base + |haystack| - n; }
    NoMatchHere(haystack, needle, offset - n);
    NoMoreMatches(haystack, needle, offset - n + 1);
    r := -1;
  }

  lemma {:induction false} NoMatchHere(haystack: Text, needle: Text, k: nat)
    requires NoMatchBefore(haystack, needle, k) && !MatchAt(haystack, needle, k)
    ensures NoMatchBefore(haystack, needle, k + 1)
  {
  }

  lemma {:induction false} Packed(haystack: Text, needle: Text, k: nat, width: nat)
    requires k + |needle| <= |haystack| && |needle| <= width
    ensures haystack[k..k + |needle|] + Zeros(width - |needle|) == needle + Zeros(width - |needle|) <==>
            MatchAt(haystack, needle, k)
  {
    var window := haystack[k..k + |needle|];
    if window + Zeros(width - |needle|) == needle + Zeros(width - |needle|) {
      assert window == (window + Zeros(width - |needle|))[..|needle|];
      assert needle == (needle + Zeros(width - |needle|))[..|needle|];
    }
  }

  /** The next window: one byte out, one byte in. */
  lemma {:induction false} Rolled(haystack: Text, k: nat, n: nat, width: nat)
    requires 0 < n <= width && k + n < |haystack|
    ensures OrAt(ShiftByte(haystack[k..k + n] + Zeros(width - n)), n - 1, haystack[k + n]) ==
            haystack[k + 1..k + n + 1] + Zeros(width - n)
  {
    var w := haystack[k..k + n] + Zeros(width - n);
    assert ShiftByte(w)[n - 1] == 0;
    assert (0 as Byte) | haystack[k + n] == haystack[k + n];
  }

  /** Needles as long as a word: one comparison per position. */
  method AlignedFind(haystack: Text, needle: Text, base: nat) returns (r: int)
    requires needle != []
    ensures r >= 0 ==> r >= base
    ensures FirstMatch(haystack, needle, if r < 0 then r else r - base)
  {
    if |needle| > |haystack| { return -1; }
    var offset := 0;
    while offset <= |haystack| - |needle|
      invariant 0 <= offset <= |haystack| - |needle| + 1 && NoMatchBefore(haystack, needle, offset)
    {
      if haystack[offset..offset + |needle|] == needle { return base + offset; }
      offset := offset + 1;
    }
    NoMoreMatches(haystack, needle, offset);
    r := -1;
  }

  // ----- sums -----

  const MODULUS := 0x1_0000_0000

  function Sum(t: Text): int {
    if t == [] then 0 else t[0] as int + Sum(t[1..])
  }

  lemma {:induction false} SumSnoc(t: Text, b: Byte)
    ensures Sum(t + [b]) == Sum(t) + b as int
  {
    if t == [] {
      assert t + [b] == [b] && [b][1..] == [];
    } else {
      assert (t + [b])[1..] == t[1..] + [b];
      SumSnoc(t[1..], b);
    }
  }

  lemma {:induction false} SumRolls(t: Text, k: nat, n: nat)
    requires k + n < |t| && n > 0
    ensures Sum(t[k + 1..k + n + 1]) == Sum(t[k..k + n]) - t[k] as int + t[k + n] as int
  {
    assert t[k + 1..k + n + 1] == t[k + 1..k + n] + [t[k + n]];
    SumSnoc(t[k + 1..k + n], t[k + n]);
    assert t[k..k + n][1..] == t[k + 1..k + n];
  }

  lemma {:induction false} ModStep(a: int, x: int, y: int)
    ensures ((a % MODULUS - x) % MODULUS + y) % MODULUS == (a - x + y) % MODULUS
  {
    var p := a / MODULUS;
    var q := (a % MODULUS - x) / MODULUS;
    assert a - x + y == (a % MODULUS - x) % MODULUS + y + MODULUS * (p + q);
  }

  /** How far the sum of a window is from the needle's. */
  function Diff(haystack: Text, needle: Text, k: nat): int
    requires k + |needle| <= |haystack|
  {
    (Sum(haystack[k..k + |needle|]) - Sum(needle)) % MODULUS
  }

  lemma {:induction false} MatchHasNoDiff(haystack: Text, needle: Text, k: nat)
    requires k + |needle| <= |haystack| && Diff(haystack, needle, k) != 0
    ensures !MatchAt(haystack, needle, k)
  {
  }

  lemma {:induction false} DiffRolls(haystack: Text, needle: Text, k: nat)
    requires needle != [] && k + |needle| < |haystack|
    ensures Diff(haystack, needle, k + 1) ==
            ((Diff(haystack, needle, k) - haystack[k] as int) % MODULUS + haystack[k + |needle|] as int) % MODULUS
  {
    var n := |needle|;
    SumRolls(haystack, k, n);
    ModRolls(Sum(haystack[k..k + n]), Sum(haystack[k + 1..k + n + 1]), Sum(needle), haystack[k] as int,
             haystack[k + n] as int);
  }

  lemma {:induction false} ModRolls(before: int, after: int, sum: int, x: int, y: int)
    requires after == before - x + y
    ensures (after - sum) % MODULUS == (((before - sum) % MODULUS - x) % MODULUS + y) % MODULUS
  {
    ModStep(before - sum, x, y);
  }

  /** Other needles: bytes are compared only where the sums agree modulo 2^32. */
  method GenericFind(haystack: Text, needle: Text, base: nat) returns (r: int)
    requires needle != []
    ensures r >= 0 ==> r >= base
    ensures FirstMatch(haystack, needle, if r < 0 then r else r - base)
  {
    var n := |needle|;
    if n > |haystack| { return -1; }
    var diff := InitialDiff(haystack, needle);
    var offset := 0;
    while true
      invariant 0 <= offset <= |haystack| - n && NoMatchBefore(haystack, needle, offset)
      invariant diff == Diff(haystack, needle, offset)
      decreases |haystack| - offset
    {
      if diff == 0 && haystack[offset] == needle[0] {
        if haystack[offset..offset + n] == needle { return base + offset; }
      } else if diff == 0 {
        OtherByte(haystack, needle, offset);
      } else {
        MatchHasNoDiff(haystack, needle, offset);
      }
      if offset >= |haystack| - n {
        NoMoreMatches(haystack, needle, offset + 1);
        return -1;
      }
      DiffRolls(haystack, needle, offset);
      diff := (diff - haystack[offset] as int) % MODULUS;
      diff := (diff + haystack[offset + n] as int) % MODULUS;
      offset := offset + 1;
    }
  }

  method InitialDiff(haystack: Text, needle: Text) returns (diff: int)
    requires |needle| <= |haystack|
    ensures diff == Diff(haystack, needle, 0)
  {
    diff := 0;
    var i := 0;
    assert haystack[..0] == [] && needle[..0] == [];
    while i < |needle|
      invariant 0 <= i <= |needle| && diff == (Sum(haystack[..i]) - Sum(needle[..i])) % MODULUS
    {
      SumSnoc(haystack[..i], haystack[i]);
      SumSnoc(needle[..i], needle[i]);
      assert haystack[..i] + [haystack[i]] == haystack[..i + 1] && needle[..i] + [needle[i]] == needle[..i + 1];
      ModStep(Sum(haystack[..i]) - Sum(needle[..i]), -(haystack[i] as int), -(needle[i] as int));
      diff := (diff + haystack[i] as int) % MODULUS;
      diff := (diff - needle[i] as int) % MODULUS;
      i := i + 1;
    }
    assert needle[..i] == needle && haystack[0..i] == haystack[..i];
  }

  // ----- the search -----

  /** The first position of a byte, or -1. */
  method FindByte(haystack: Text, b: Byte) returns (r: int)
    ensures -1 <= r < |haystack|
    ensures r >= 0 ==> haystack[r] == b && forall k :: 0 <= k < r ==> haystack[k] != b
    ensures r < 0 ==> forall k :: 0 <= k < |haystack| ==> haystack[k] != b
  {
    r := 0;
    while r < |haystack|
      invariant 0 <= r <= |haystack| && forall k :: 0 <= k < r ==> haystack[k] != b
    {
      if haystack[r] == b { return; }
      r := r + 1;
    }
    r := -1;
  }

  lemma {:induction false} OtherByte(haystack: Text, needle: Text, k: nat)
    requires needle != [] && k < |haystack| && haystack[k] != needle[0]
    ensures !MatchAt(haystack, needle, k)
  {
    assert k + |needle| <= |haystack| ==> haystack[k..k + |needle|][0] == haystack[k];
  }

  /** No match begins before the first byte of the needle does. */
  lemma {:induction false} SkipTo(haystack: Text, needle: Text, first: nat, r: int)
    requires needle != [] && first < |haystack| && forall k :: 0 <= k < first ==> haystack[k] != needle[0]
    requires (r >= 0 ==> r >= first) && FirstMatch(haystack[first..], needle, if r < 0 then r else r - first)
    ensures FirstMatch(haystack, needle, r)
  {
    var rest := haystack[first..];
    forall k | 0 <= k < first ensures !MatchAt(haystack, needle, k) {
      OtherByte(haystack, needle, k);
    }
    forall k | first <= k ensures MatchAt(haystack, needle, k) <==> MatchAt(rest, needle, k - first) {
      assert k + |needle| <= |haystack| ==> rest[k - first..k - first + |needle|] == haystack[k..k + |needle|];
    }
    if r < 0 {
      forall k | 0 <= k < |haystack| + 1 ensures !MatchAt(haystack, needle, k) {
        assert k >= first ==> !MatchAt(rest, needle, k - first);
      }
    } else {
      forall k | 0 <= k < r ensures !MatchAt(haystack, needle, k) {
        assert k >= first ==> !MatchAt(rest, needle, k - first);
      }
    }
  }

  /** The first match of a non-empty needle, by the search for its length. */
  method Find(haystack: Text, needle: Text) returns (r: int)
    requires needle != [] && |haystack| < MODULUS
    ensures FirstMatch(haystack, needle, r)
  {
    var first := FindByte(haystack, needle[0]);
    if first < 0 {
      forall k | 0 <= k < |haystack| + 1 ensures !MatchAt(haystack, needle, k) {
        if k < |haystack| { OtherByte(haystack, needle, k); }
      }
      return -1;
    }
    var rest := haystack[first..];
    match |needle| {
      case 1 =>
        assert rest[0..1] == needle;
        r := first;
      case 2 => r := AlignedFind(rest, needle, first);
      case 3 => r := UnalignedFind(rest, needle, 4, first);
      case 4 => r := AlignedFind(rest, needle, first);
      case 5 => r := UnalignedFind(rest, needle, 8, first);
      case 6 => r := UnalignedFind(rest, needle, 8, first);
      case 7 => r := UnalignedFind(rest, needle, 8, first);
      case 8 => r := AlignedFind(rest, needle, first);
      case _ => r := GenericFind(rest, needle, first);
    }
    SkipTo(haystack, needle, first, r);
  }
}
