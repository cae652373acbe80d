/** Streaming MD5 over a compression function, against the one-shot definition in sections 3.1 to
    3.5 of RFC 1321. */
module Md5 {

  newtype Byte = x: int | 0 <= x < 256
  const M := 0x1_0000_0000
  newtype Word = x: int | 0 <= x < 0x1_0000_0000

  /** The compression of one block of sixteen words into the state. */
  type Compression = (seq<Word>, seq<Word>) -> seq<Word>

  // ----- the one-shot definition -----

  /** Four bytes, least significant first. */
  function BytesOf(w: Word): (r: seq<Byte>)
    ensures |r| == 4
  {
    var x := w as int;
    [(x % 256) as Byte, (x / 256 % 256) as Byte, (x / 256 / 256 % 256) as Byte, (x / 256 / 256 / 256) as Byte]
  }

  function WordOf(b: seq<Byte>): Word
    requires |b| == 4
  {
    (b[0] as int + 256 * (b[1] as int + 256 * (b[2] as int + 256 * b[3] as int))) as Word
  }

  lemma {:induction false} WordOfBytes(w: Word)
    ensures WordOf(BytesOf(w)) == w
  {
  }

  function WordsOf(b: seq<Byte>, n: nat): (r: seq<Word>)
    requires |b| == 4 * n
    ensures |r| == n
  {
    seq(n, i requires 0 <= i < n => WordOf(b[4 * i..4 * i + 4]))
  }

  function AllBytes(ws: seq<Word>): seq<Byte> {
    if ws == [] then [] else BytesOf(ws[0]) + AllBytes(ws[1..])
  }

  /** A digit of a number to the base 256, the lowest is digit 0. */
  function Digit(x: nat, k: nat): nat
    decreases k
  {
    if k == 0 then x % 256 else Digit(x / 256, k - 1)
  }

  lemma {:induction false} Digits4(x: nat)
    ensures Digit(x, 0) == x % 256 && Digit(x, 1) == x / 256 % 256
    ensures Digit(x, 2) == x / 256 / 256 % 256 && Digit(x, 3) == x / 256 / 256 / 256 % 256
  {
    assert Digit(x, 3) == Digit(x / 256, 2) == Digit(x / 256 / 256, 1);
  }

  lemma {:induction false} BytesAreDigits(w: Word, k: nat)
    requires k < 4
    ensures BytesOf(w)[k] as int == Digit(w as int, k)
  {
    Digits4(w as int);
  }

  /** The bytes of words: four for each word in turn, the lowest digit first. */
  lemma {:induction false} AllBytesAt(ws: seq<Word>, i: nat, k: nat)
    requires i < |ws| && k < 4
    ensures |AllBytes(ws)| == 4 * |ws| && AllBytes(ws)[4 * i + k] as int == Digit(ws[i] as int, k)
  {
    AllBytesLength(ws);
    if i == 0 {
      BytesAreDigits(ws[0], k);
    } else {
      AllBytesAt(ws[1..], i - 1, k);
    }
  }

  /** Byte `4 * i + k` is digit `k` of word `i`. */
  ghost predicate DigitsOfAll(bytes: seq<Byte>, ws: seq<Word>) {
    && |bytes| == 4 * |ws|
    && forall i: nat, k: nat {:trigger Digit(ws[i] as int, k)} ::
         i < |ws| && k < 4 ==> bytes[4 * i + k] as int == Digit(ws[i] as int, k)
  }

  lemma {:induction false} BytesAreAllDigits(ws: seq<Word>)
    ensures DigitsOfAll(AllBytes(ws), ws)
  {
    AllBytesLength(ws);
    forall i: nat, k: nat {:trigger Digit(ws[i] as int, k)} | i < |ws| && k < 4
      ensures AllBytes(ws)[4 * i + k] as int == Digit(ws[i] as int, k)
    {
      AllBytesAt(ws, i, k);
    }
  }

  lemma {:induction false} AllBytesLength(ws: seq<Word>)
    ensures |AllBytes(ws)| == 4 * |ws|
  {
    if ws != [] { AllBytesLength(ws[1..]); }
  }

  /** Words come back from their bytes, in order. */
  lemma {:induction false} WordsOfAllBytes(ws: seq<Word>)
    ensures |AllBytes(ws)| == 4 * |ws| && WordsOf(AllBytes(ws), |ws|) == ws
  {
    AllBytesLength(ws);
    forall i | 0 <= i < |ws| ensures WordsOf(AllBytes(ws), |ws|)[i] == ws[i] {
      BytesOfWord(ws, i);
      WordOfBytes(ws[i]);
    }
  }

  lemma {:induction false} BytesOfWord(ws: seq<Word>, i: nat)
    requires i < |ws|
    ensures |AllBytes(ws)| == 4 * |ws| && AllBytes(ws)[4 * i..4 * i + 4] == BytesOf(ws[i])
  {
    AllBytesLength(ws);
    if i > 0 {
      BytesOfWord(ws[1..], i - 1);
      assert AllBytes(ws)[4 * i..4 * i + 4] == AllBytes(ws[1..])[4 * (i - 1)..4 * (i - 1) + 4];
    }
  }

  /** A block that ends in the bytes of two words. */
  lemma {:induction false} WordsOfLast(b: seq<Byte>, low: Word, high: Word)
    requires |b| == 56
    ensures WordsOf(b + BytesOf(low) + BytesOf(high), 16) == WordsOf(b, 14) + [low, high]
  {
    var block := b + BytesOf(low) + BytesOf(high);
    forall i | 0 <= i < 14 ensures block[4 * i..4 * i + 4] == b[4 * i..4 * i + 4] {}
    assert block[56..60] == BytesOf(low) && block[60..64] == BytesOf(high);
    WordOfBytes(low);
    WordOfBytes(high);
  }

  /** All whole blocks of a text, one after the other. */
  function Blocks(f: Compression, state: seq<Word>, text: seq<Byte>): seq<Word>
    decreases |text|
  {
    if |text| < 64 then state else Blocks(f, f(state, WordsOf(text[..64], 16)), text[64..])
  }

  function Zeros(n: nat): (r: seq<Byte>)
    ensures |r| == n
  {
    seq(n, _ => 0)
  }

  function LowBits(length: nat): Word {
    (8 * length % M) as Word
  }

  function HighBits(length: nat): Word {
    (8 * length / M % M) as Word
  }

  /** A one bit, zeros up to 56 bytes modulo 64, and the length in bits modulo 2^64, low word first. */
  function Padding(length: nat): seq<Byte> {
    [0x80] + Zeros((55 - length) % 64) + BytesOf(LowBits(length)) + BytesOf(HighBits(length))
  }

  /** Sections 3.1 and 3.2 of RFC 1321: the padding begins with the byte 0x80, makes the length a multiple
      of 64 bytes with as few zeros as possible, and ends with the eight digits of the number of bits. */
  lemma {:induction false} PaddingIs(length: nat)
    ensures var p := Padding(length);
            && 9 <= |p| < 9 + 64 && (length + |p|) % 64 == 0 && p[0] == 0x80
            && (forall i :: 1 <= i < |p| - 8 ==> p[i] == 0)
            && (forall k :: 0 <= k < 8 ==> p[|p| - 8 + k] as int == Digit(8 * length, k))
  {
    var p, z := Padding(length), (55 - length) % 64;
    var low, high := LowBits(length), HighBits(length);
    assert |p| == z + 9 && (length + z + 9) % 64 == 0 by { PaddingLength(length, z); }
    forall k | 0 <= k < 8 ensures p[|p| - 8 + k] as int == Digit(8 * length, k) {
      if k < 4 {
        assert p[|p| - 8 + k] == BytesOf(low)[k];
        BytesAreDigits(low, k);
        LowDigit(8 * length, k);
      } else {
        assert p[|p| - 8 + k] == BytesOf(high)[k - 4];
        BytesAreDigits(high, k - 4);
        LowDigit(8 * length / M, k - 4);
        HighDigit(8 * length, k - 4);
      }
    }
  }

  lemma {:induction false} PaddingLength(length: nat, z: nat)
    requires z == (55 - length) % 64
    ensures (length + z + 9) % 64 == 0
  {
    var q := (55 - length) / 64;
    assert 55 - length == 64 * q + z;
    assert length + z + 9 == 64 * (1 - q);
  }

  lemma {:induction false} LowDigit(x: nat, k: nat)
    requires k < 4
    ensures Digit(x % M, k) == Digit(x, k)
  {
    Digits4(x);
    Digits4(x % M);
    var q, r := x / M, x % M;
    DropByte(x, r, 0x100_0000 * q);
    DropByte(x / 256, r / 256, 0x1_0000 * q);
    DropByte(x / 256 / 256, r / 256 / 256, 0x100 * q);
    DropByte(x / 256 / 256 / 256, r / 256 / 256 / 256, q);
  }

  lemma {:induction false} DropByte(x: nat, r: nat, y: nat)
    requires x == r + 256 * y
    ensures x % 256 == r % 256 && x / 256 == r / 256 + y
  {
  }

  lemma {:induction false} HighDigit(x: nat, k: nat)
    ensures Digit(x / M, k) == Digit(x, k + 4)
  {
    assert Digit(x, k + 4) == Digit(x / 256, k + 3) == Digit(x / 256 / 256, k + 2);
    assert Digit(x / 256 / 256, k + 2) == Digit(x / 256 / 256 / 256, k + 1) == Digit(x / 256 / 256 / 256 / 256, k);
    assert x / 256 / 256 / 256 / 256 == x / M;
  }

  const INIT: seq<Word> := [0x67452301, 0xefcdab89, 0x98badcfe, 0x10325476]

  function Digest(f: Compression, message: seq<Byte>): seq<Byte> {
    AllBytes(Blocks(f, INIT, message + Padding(|message|)))
  }

  lemma {:induction false} BlocksConcat(f: Compression, state: seq<Word>, a: seq<Byte>, b: seq<Byte>)
    requires |a| % 64 == 0
    ensures Blocks(f, state, a + b) == Blocks(f, Blocks(f, state, a), b)
    decreases |a|
  {
    if |a| < 64 {
      assert a + b == b;
    } else {
      assert (a + b)[..64] == a[..64] && (a + b)[64..] == a[64..] + b;
      BlocksConcat(f, f(state, WordsOf(a[..64], 16)), a[64..], b);
    }
  }

  lemma {:induction false} OneBlock(f: Compression, state: seq<Word>, block: seq<Byte>)
    requires |block| == 64
    ensures Blocks(f, state, block) == f(state, WordsOf(block, 16))
  {
    assert block[..64] == block && block[64..] == [];
  }

  // ----- the bit count -----

  /** The low and the high word of the count, after `len` more bytes. */
  function Counted(low: Word, high: Word, len: Word): (Word, Word) {
    var low' := ((low as int + 8 * (len as int) % M) % M) as Word;
    var carry := if low' < low then 1 else 0;
    (low', ((high as int + carry + len as int / 0x2000_0000) % M) as Word)
  }

  function CountOf(low: Word, high: Word): nat {
    low as int + M * (high as int)
  }

  lemma {:induction false} CountAdds(low: Word, high: Word, len: Word)
    ensures var (low', high') := Counted(low, high, len);
            CountOf(low', high') == (CountOf(low, high) + 8 * len as int) % (M * M)
  {
    var (low', high') := Counted(low, high, len);
    var l, h, n := low as int, high as int, len as int;
    var x, y := 8 * n % M, n / 0x2000_0000;
    assert 8 * n == x + M * y;
    var carry := if low' < low then 1 else 0;
    assert l + x == low' as int + M * carry;
    var top := h + carry + y;
    assert CountOf(low, high) + 8 * n == low' as int + M * top;
    assert low' as int + M * top == low' as int + M * (top % M) + (M * M) * (top / M);
  }

  lemma {:induction false} ModTwice(a: nat, b: nat)
    ensures (a % M + b) % M == (a + b) % M
  {
    var k := a / M;
    assert a + b == a % M + b + M * k;
  }

  lemma {:induction false} DigitsOf(x: int, q: int, r: int)
    requires 0 <= r < M && x == M * q + r
    ensures x / M == q && x % M == r
  {
  }

  lemma {:induction false} BytesInBlock(low: int, length: int, k: int)
    requires low == 8 * length - M * k
    ensures low / 8 % 64 == length % 64
  {
    assert low / 8 == length - 64 * (0x80_0000 * k);
  }

  lemma {:induction false} CountMod(low: Word, high: Word, length: nat)
    requires CountOf(low, high) == 8 * length % (M * M)
    ensures low as int / 8 % 64 == length % 64
    ensures low as int == 8 * length % M && high as int == 8 * length / M % M
  {
    var q := 8 * length / (M * M);
    var k := high as int + M * q;
    assert 8 * length == M * k + low as int;
    DigitsOf(8 * length, k, low as int);
    DigitsOf(k, q, high as int);
    BytesInBlock(low as int, length, k);
  }

  // ----- streaming -----

  /** Overwrites part of a buffer. */
  method CopyInto(a: array<Byte>, at: nat, data: seq<Byte>)
    requires at + |data| <= a.Length
    modifies a
    ensures a[..] == old(a[..at]) + data + old(a[at + |data|..])
  {
    var k := 0;
    while k < |data|
      invariant 0 <= k <= |data|
      invariant forall i :: 0 <= i < a.Length ==> a[i] == if at <= i < at + k then data[i - at] else old(a[i])
    {
      a[at + k] := data[k];
      k := k + 1;
    }
  }

  class Context {
    const compress: Compression
    var state: seq<Word>
    var low: Word
    var high: Word
    const input: array<Byte>
    /** The bytes seen so far. */
    ghost var message: seq<Byte>

    /** Whole blocks are in the state, the rest is in the buffer, and the counters hold eight times the
        number of bytes modulo 2^64. */
    ghost predicate Valid()
      reads this, input
    {
      && input.Length == 64
      && Absorbed(compress, state, input[..], message)
      && CountOf(low, high) == 8 * |message| % (M * M)
    }

    constructor (compress: Compression)
      ensures Valid() && message == [] && this.compress == compress && fresh(input)
      ensures state == [0x67452301, 0xefcdab89, 0x98badcfe, 0x10325476]
    {
      this.compress := compress;
      state, low, high, message := INIT, 0, 0, [];
      input := new Byte[64](_ => 0);
    }

    /** Counts `len` more bytes, with a carry from the low to the high word. */
    method Count(len: Word)
      modifies this`low, this`high
      ensures CountOf(low, high) == (old(CountOf(low, high)) + 8 * len as int) % (M * M)
    {
      CountAdds(low, high, len);
      ModTwice(high as int + 1, len as int / 0x2000_0000);
      var t := low;
      low := ((t as int + 8 * (len as int) % M) % M) as Word;
      if low < t {
        high := ((high as int + 1) % M) as Word;
      }
      high := ((high as int + len as int / 0x2000_0000) % M) as Word;
    }

    /** Compresses the full buffer. */
    method Transform(ghost seen: seq<Byte>, ghost data: seq<Byte>, ghost before: seq<Byte>)
      requires input.Length == 64 && Absorbed(compress, state, before, seen) && |seen| % 64 + |data| == 64
      requires input[..] == before[..|seen| % 64] + data + before[64..]
      modifies this`state
      ensures (|seen| + |data|) % 64 == 0 && Absorbed(compress, state, input[..], seen + data)
    {
      AbsorbBlock(compress, state, before, seen, data);
      state := compress(state, WordsOf(input[..], 16));
    }

    /** Takes in bytes behind a whole number of blocks. */
    method AbsorbFrom(data: seq<Byte>, ghost start: seq<Byte>)
      requires input.Length == 64 && |start| % 64 == 0 && Absorbed(compress, state, input[..], start)
      modifies this`state, input
      ensures Absorbed(compress, state, input[..], start + data)
    {
      var rest := data;
      ghost var seen := start;
      while |rest| >= 64
        invariant seen + rest == start + data && |seen| % 64 == 0 && Absorbed(compress, state, input[..], seen)
        decreases |rest|
      {
        ghost var before := input[..];
        CopyInto(input, 0, rest[..64]);
        Transform(seen, rest[..64], before);
        assert seen + rest == seen + rest[..64] + rest[64..];
        seen := seen + rest[..64];
        rest := rest[64..];
      }
      AbsorbPart(compress, state, input[..], seen, rest);
      CopyInto(input, 0, rest);
    }

    /** Takes in bytes behind `t` bytes in the buffer. */
    method AbsorbBehind(t: nat, data: seq<Byte>, ghost seen: seq<Byte>)
      requires input.Length == 64 && 0 < t == |seen| % 64 && Absorbed(compress, state, input[..], seen)
      modifies this`state, input
      ensures Absorbed(compress, state, input[..], seen + data)
    {
      var room := 64 - t;
      ghost var before := input[..];
      if |data| < room {
        AbsorbPart(compress, state, before, seen, data);
        CopyInto(input, t, data);
      } else {
        CopyInto(input, t, data[..room]);
        Transform(seen, data[..room], before);
        AbsorbFrom(data[room..], seen + data[..room]);
        assert seen + data[..room] + data[room..] == seen + data;
      }
    }

    method Update(data: seq<Byte>)
      requires Valid() && |data| < M
      modifies this`state, this`low, this`high, this`message, input
      ensures Valid() && message == old(message) + data
    {
      CountMod(low, high, |message|);
      CountAppends(CountOf(low, high), |message|, |data|);
      var t := low as int / 8 % 64;
      Count(|data| as Word);
      if t == 0 {
        AbsorbFrom(data, message);
      } else {
        AbsorbBehind(t, data, message);
      }
      message := message + data;
    }

    /** The marker and zeros up to the count, in a new block if it does not fit into this one. */
    method Pad(count: nat, ghost rest: seq<Byte>)
      requires input.Length == 64 && count < 64 && rest == input[..count]
      modifies this`state, input
      ensures count <= 55 ==> state == old(state) && input[..56] == rest + [0x80] + Zeros(55 - count)
      ensures count > 55 ==>
                && state == compress(old(state), WordsOf(rest + [0x80] + Zeros(63 - count), 16)) &&
                   input[..56] == Zeros(56)
    {
      input[count] := 0x80;
      var free := 64 - 1 - count;
      if free < 8 {
        CopyInto(input, count + 1, Zeros(free));
        assert input[..] == rest + [0x80] + Zeros(free);
        state := compress(state, WordsOf(input[..], 16));
        CopyInto(input, 0, Zeros(56));
        assert input[..56] == Zeros(56);
      } else {
        CopyInto(input, count + 1, Zeros(free - 8));
        assert input[..56] == rest + [0x80] + Zeros(free - 8);
      }
    }

    /** Pads and appends the count. */
    method CompressLast()
      requires Valid()
      modifies this`state, input
      ensures state == Blocks(compress, INIT, message + Padding(|message|))
    {
      CountMod(low, high, |message|);
      var count := low as int / 8 % 64;
      ghost var start, rest := state, input[..count];
      Pad(count, rest);
      LastBlock(compress, start, rest, message);
      state := compress(state, WordsOf(input[..56], 14) + [low, high]);
    }

    /** Gives out the digest of the padded message; then everything is wiped. */
    method Final() returns (digest: seq<Byte>)
      requires Valid()
      modifies this`state, this`low, this`high, this`message, input
      ensures digest == Digest(compress, old(message))
      ensures DigitsOfAll(digest, Blocks(compress, INIT, old(message) + Padding(|old(message)|)))
      ensures state == [0, 0, 0, 0] && low == high == 0 && input[..] == Zeros(64)
    {
      CompressLast();
      digest := AllBytes(state);
      BytesAreAllDigits(state);
      state, low, high, message := [0, 0, 0, 0], 0, 0, [];
      CopyInto(input, 0, Zeros(64));
    }
  }

  lemma {:induction false} ZerosNeeded(length: nat)
    ensures var r := length % 64; (55 - length) % 64 == if r <= 55 then 55 - r else 119 - r
  {
    var r, q := length % 64, length / 64;
    assert length == 64 * q + r;
    assert 55 - length == 64 * (-q) + (55 - r) && 55 - length == 64 * (-q - 1) + (119 - r);
  }

  lemma {:induction false} PaddedTail(f: Compression, state: seq<Word>, rest: seq<Byte>, message: seq<Byte>,
                                      padding: seq<Byte>)
    requires |rest| == |message| % 64 && state == Blocks(f, INIT, message[..|message| - |rest|]) &&
             rest == message[|message| - |rest|..]
    ensures Blocks(f, INIT, message + padding) == Blocks(f, state, rest + padding)
  {
    var whole := message[..|message| - |rest|];
    assert message + padding == whole + (rest + padding);
    BlocksConcat(f, INIT, whole, rest + padding);
  }

  lemma {:induction false} OneMoreBlock(f: Compression, state: seq<Word>, rest: seq<Byte>, length: nat)
    requires |rest| == length % 64 <= 55
    ensures Blocks(f, state, rest + Padding(length)) ==
            f(state, WordsOf(rest + [0x80] + Zeros(55 - |rest|), 14) + [LowBits(length), HighBits(length)])
  {
    ZerosNeeded(length);
    var low, high := LowBits(length), HighBits(length);
    var front := rest + [0x80] + Zeros(55 - |rest|);
    var block := front + BytesOf(low) + BytesOf(high);
    assert rest + Padding(length) == block;
    OneBlock(f, state, block);
    WordsOfLast(front, low, high);
  }

  lemma {:induction false} TwoMoreBlocks(f: Compression, state: seq<Word>, rest: seq<Byte>, length: nat)
    requires |rest| == length % 64 > 55
    ensures Blocks(f, state, rest + Padding(length)) ==
            f(f(state, WordsOf(rest + [0x80] + Zeros(63 - |rest|), 16)),
              WordsOf(Zeros(56), 14) + [LowBits(length), HighBits(length)])
  {
    ZerosNeeded(length);
    var low, high := LowBits(length), HighBits(length);
    var first, second := rest + [0x80] + Zeros(63 - |rest|), Zeros(56) + BytesOf(low) + BytesOf(high);
    assert Zeros(119 - |rest|) == Zeros(63 - |rest|) + Zeros(56);
    assert rest + Padding(length) == first + second;
    BlocksConcat(f, state, first, second);
    OneBlock(f, state, first);
    OneBlock(f, f(state, WordsOf(first, 16)), second);
    WordsOfLast(Zeros(56), low, high);
  }

  /** What the padding adds, in one block or in two. */
  lemma {:induction false} LastBlock(f: Compression, state: seq<Word>, rest: seq<Byte>, message: seq<Byte>)
    requires |rest| == |message| % 64 && state == Blocks(f, INIT, message[..|message| - |rest|]) &&
             rest == message[|message| - |rest|..]
    ensures var count := [LowBits(|message|), HighBits(|message|)];
            Blocks(f, INIT, message + Padding(|message|)) ==
            if |rest| <= 55 then f(state, WordsOf(rest + [0x80] + Zeros(55 - |rest|), 14) + count)
            else f(f(state, WordsOf(rest + [0x80] + Zeros(63 - |rest|), 16)), WordsOf(Zeros(56), 14) + count)
  {
    PaddedTail(f, state, rest, message, Padding(|message|));
    if |rest| <= 55 { OneMoreBlock(f, state, rest, |message|); } else { TwoMoreBlocks(f, state, rest, |message|); }
  }

  function Concat(chunks: seq<seq<Byte>>): seq<Byte> {
    if chunks == [] then [] else chunks[0] + Concat(chunks[1..])
  }

  /** However a message is cut into updates, the digest is that of the whole message. */
  method HashChunks(compress: Compression, chunks: seq<seq<Byte>>) returns (digest: seq<Byte>)
    requires forall k :: 0 <= k < |chunks| ==> |chunks[k]| < M
    ensures digest == Digest(compress, Concat(chunks))
    ensures DigitsOfAll(digest, Blocks(compress, INIT, Concat(chunks) + Padding(|Concat(chunks)|)))
  {
    var ctx := new Context(compress);
    var k := 0;
    assert chunks[0..] == chunks && [] + Concat(chunks) == Concat(chunks);
    while k < |chunks|
      invariant 0 <= k <= |chunks| && ctx.Valid() && ctx.compress == compress && fresh(ctx) && fresh(ctx.input)
      invariant ctx.message + Concat(chunks[k..]) == Concat(chunks)
    {
      ctx.Update(chunks[k]);
      assert chunks[k..][1..] == chunks[k + 1..];
      k := k + 1;
    }
    assert ctx.message + [] == ctx.message;
    digest := ctx.Final();
  }

  /** Whole blocks are in the state, and the rest is at the front of the buffer. */
  ghost predicate Absorbed(f: Compression, state: seq<Word>, input: seq<Byte>, message: seq<Byte>) {
    var r := |message| % 64;
    |input| == 64 && state == Blocks(f, INIT, message[..|message| - r]) && input[..r] == message[|message| - r..]
  }

  lemma {:induction false} CountAppends(count: nat, n: nat, m: nat)
    requires count == 8 * n % (M * M)
    ensures (count + 8 * m) % (M * M) == 8 * (n + m) % (M * M)
  {
    var k := 8 * n / (M * M);
    assert 8 * (n + m) == count + 8 * m + (M * M) * k;
  }

  /** More bytes that do not fill the buffer. */
  lemma {:induction false} AbsorbPart(f: Compression, state: seq<Word>, input: seq<Byte>, message: seq<Byte>,
                                      data: seq<Byte>)
    requires Absorbed(f, state, input, message) && |message| % 64 + |data| < 64
    ensures var r := |message| % 64; Absorbed(f, state, input[..r] + data + input[r + |data|..], message + data)
  {
    var r := |message| % 64;
    var all, n := message + data, |message| - r;
    assert |all| % 64 == r + |data|;
    assert all[..n] == message[..n] && all[n..] == message[n..] + data;
    assert (input[..r] + data + input[r + |data|..])[..r + |data|] == input[..r] + data;
  }

  /** Bytes that fill the buffer: the block goes into the state. */
  lemma {:induction false} AbsorbBlock(f: Compression, state: seq<Word>, input: seq<Byte>, message: seq<Byte>,
                                       data: seq<Byte>)
    requires Absorbed(f, state, input, message) && |message| % 64 + |data| == 64
    ensures var r := |message| % 64;
            var block := input[..r] + data + input[64..];
            && |block| == 64 && (|message| + |data|) % 64 == 0
            && Absorbed(f, f(state, WordsOf(block, 16)), block, message + data)
  {
    var r := |message| % 64;
    var all, n := message + data, |message| - r;
    var block := input[..r] + data + input[64..];
    assert block == message[n..] + data;
    assert all == message[..n] + block && all[..|all|] == all;
    BlocksConcat(f, INIT, message[..n], block);
    OneBlock(f, state, block);
  }
}
