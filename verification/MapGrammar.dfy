/** The grammar of map texts: what the keys and values of a map are, without reference to the scanner. */
module MapGrammar {
  import opened NestedText
  import opened NestedScanner
  import opened TextChunks

  /** White space up to `key`, a key up to the equals sign at `sign`, white space up to `value` and a value
      up to `end`. */
  datatype Pair = Pair(start: nat, key: nat, sign: nat, value: nat, end: nat,
                       keyChunks: seq<Chunk>, valueChunks: seq<Chunk>)

  ghost predicate PairAt(s: string, p: Pair) {
    && p.start <= p.key <= p.sign < p.value <= p.end < |s|
    && AllSpace(s[p.start..p.key]) && !IsSpace(s[p.key])
    && s[p.key..p.sign] == Text(p.keyChunks) && ChunksOk(p.keyChunks, InKey, true) && s[p.sign] == '='
    && AllSpace(s[p.sign + 1..p.value]) && !IsSpace(s[p.value])
    && s[p.value..p.end] == Text(p.valueChunks) && ChunksOk(p.valueChunks, InValue, true)
  }

  /** Pairs from `i` on, with commas between them and a close brace behind the last. */
  ghost predicate PairsAt(s: string, i: nat, ps: seq<Pair>) {
    ps != [] && ps[0].start == i && AllPairs(s, ps) && Separated(s, ps)
  }

  ghost predicate AllPairs(s: string, ps: seq<Pair>) {
    forall n :: 0 <= n < |ps| ==> PairAt(s, ps[n])
  }

  ghost predicate Separated(s: string, ps: seq<Pair>) {
    && (forall n :: 0 <= n < |ps| - 1 ==> SeparatedAt(s, ps, n))
    && (ps != [] ==> ps[|ps| - 1].end < |s| && s[ps[|ps| - 1].end] == '}')
  }

  ghost predicate SeparatedAt(s: string, ps: seq<Pair>, n: nat) {
    n + 1 < |ps| && ps[n].end < |s| && s[ps[n].end] == ',' && ps[n + 1].start == ps[n].end + 1
  }

  /** A map: white space, an open brace at `i`, pairs and the close brace. */
  ghost predicate MapText(s: string, i: nat, ps: seq<Pair>) {
    i < |s| && AllSpace(s[..i]) && s[i] == '{' && PairsAt(s, i + 1, ps) && s[ps[0].key] != '}'
  }

  /** Braces at `i` and `j` with nothing but white space before and between them. */
  ghost predicate EmptyText(s: string, i: nat, j: nat) {
    i < j < |s| && AllSpace(s[..i]) && s[i] == '{' && AllSpace(s[i + 1..j]) && s[j] == '}'
  }

  function Keys(ps: seq<Pair>): (r: seq<Range>)
    ensures |r| == |ps|
  {
    seq(|ps|, n requires 0 <= n < |ps| => Range(ps[n].key, ps[n].sign))
  }

  function Values(ps: seq<Pair>): (r: seq<Range>)
    ensures |r| == |ps|
  {
    seq(|ps|, n requires 0 <= n < |ps| => Range(ps[n].value, ps[n].end))
  }

  // ----- one pair -----

  lemma {:induction false} PairBegins(s: string, p: Pair)
    requires PairAt(s, p)
    ensures SkipSpace(s, p.start) == p.key && SkipSpace(s, p.sign + 1) == p.value
  {
    GapTo(s, p.start, p.key);
    GapTo(s, p.sign + 1, p.value);
  }

  lemma {:induction false} KeyEnds(s: string, p: Pair)
    requires PairAt(s, p)
    ensures FindStop(s, p.key, true) == Some(p.sign)
  {
    StopBehind(s, p.key, p.sign, p.keyChunks, true);
  }

  lemma {:induction false} ValueEnds(s: string, p: Pair)
    requires PairAt(s, p) && Ends(InValue, s[p.end])
    ensures FindStop(s, p.value, false) == Some(p.end)
  {
    StopBehind(s, p.value, p.end, p.valueChunks, false);
  }

  /** What the scanner sees of a pair. */
  ghost predicate Seen(s: string, p: Pair) {
    && p.end < |s| && Stops(false, s[p.end])
    && SkipSpace(s, p.start) == p.key && FindStop(s, p.key, true) == Some(p.sign)
    && SkipSpace(s, p.sign + 1) == p.value && FindStop(s, p.value, false) == Some(p.end)
  }

  lemma {:induction false} PairSeen(s: string, p: Pair)
    requires PairAt(s, p) && Ends(InValue, s[p.end])
    ensures Seen(s, p)
  {
    PairBegins(s, p);
    KeyEnds(s, p);
    ValueEnds(s, p);
  }

  // ----- the pairs -----

  /** Scanning from behind the open brace or a comma. */
  function ScanFrom(s: string, i: nat): MapSplit {
    ScanMap(s, SkipSpace(s, i))
  }

  /** Nothing but white space from a position on. */
  ghost predicate Blank(s: string, i: nat) {
    i <= |s| && AllSpace(s[i..])
  }

  function One(p: Pair, ok: bool): MapSplit {
    MapSplit([Range(p.key, p.sign)], [Range(p.value, p.end)], ok)
  }

  lemma {:induction false} LastFound(s: string, p: Pair)
    requires Seen(s, p) && s[p.end] == '}'
    ensures ScanFrom(s, p.start) == One(p, Blank(s, p.end + 1))
  {
    RestIsSpace(s, p.end + 1);
  }

  lemma {:induction false} MoreFound(s: string, p: Pair)
    requires Seen(s, p) && s[p.end] == ','
    ensures ScanFrom(s, p.start) == Before(One(p, false), ScanFrom(s, p.end + 1))
  {
  }

  lemma {:induction false} PairInside(s: string, i: nat, ps: seq<Pair>, n: nat)
    requires PairsAt(s, i, ps) && n < |ps|
    ensures PairAt(s, ps[n]) && ps[n].end < |s|
    ensures if n == |ps| - 1 then s[ps[n].end] == '}' else SeparatedAt(s, ps, n)
  {
  }

  /** What the scanner sees of pairs. */
  ghost predicate AllSeen(s: string, ps: seq<Pair>) {
    ps != [] && EachSeen(s, ps) && Separated(s, ps)
  }

  ghost predicate EachSeen(s: string, ps: seq<Pair>) {
    forall n :: 0 <= n < |ps| ==> Seen(s, ps[n])
  }

  lemma {:induction false} PairsSeen(s: string, i: nat, ps: seq<Pair>)
    requires PairsAt(s, i, ps)
    ensures AllSeen(s, ps)
  {
    forall n | 0 <= n < |ps| ensures Seen(s, ps[n]) {
      PairInside(s, i, ps, n);
      PairSeen(s, ps[n]);
    }
  }

  /** Results of which each puts its pair before the next. */
  ghost predicate Linked(ps: seq<Pair>, found: seq<MapSplit>, ok: bool) {
    && |found| == |ps| > 0 && found[|ps| - 1] == One(ps[|ps| - 1], ok)
    && forall k :: 0 <= k < |ps| - 1 ==> found[k] == Before(One(ps[k], false), found[k + 1])
  }

  lemma {:induction false} Collected(ps: seq<Pair>, found: seq<MapSplit>, ok: bool, n: nat)
    requires Linked(ps, found, ok) && n < |ps|
    ensures found[n] == MapSplit(Keys(ps)[n..], Values(ps)[n..], ok)
    decreases |ps| - n
  {
    if n < |ps| - 1 { Collected(ps, found, ok, n + 1); }
    assert Keys(ps)[n..] == [Range(ps[n].key, ps[n].sign)] + Keys(ps)[n + 1..];
    assert Values(ps)[n..] == [Range(ps[n].value, ps[n].end)] + Values(ps)[n + 1..];
  }

  /** The results of scanning from each pair on. */
  function Scans(s: string, ps: seq<Pair>): (found: seq<MapSplit>)
    ensures |found| == |ps|
  {
    seq(|ps|, n requires 0 <= n < |ps| => ScanFrom(s, ps[n].start))
  }

  lemma {:induction false} ScansStep(s: string, ps: seq<Pair>, k: nat)
    requires k < |ps| - 1 && Seen(s, ps[k]) && s[ps[k].end] == ',' && ps[k + 1].start == ps[k].end + 1
    ensures Scans(s, ps)[k] == Before(One(ps[k], false), Scans(s, ps)[k + 1])
  {
    MoreFound(s, ps[k]);
  }

  lemma {:induction false} ScansLast(s: string, ps: seq<Pair>)
    requires ps != [] && Seen(s, ps[|ps| - 1]) && s[ps[|ps| - 1].end] == '}'
    ensures Scans(s, ps)[|ps| - 1] == One(ps[|ps| - 1], Blank(s, ps[|ps| - 1].end + 1))
  {
    LastFound(s, ps[|ps| - 1]);
  }

  lemma {:induction false} ScansLinked(s: string, ps: seq<Pair>)
    requires AllSeen(s, ps)
    ensures Linked(ps, Scans(s, ps), Blank(s, ps[|ps| - 1].end + 1))
  {
    forall k | 0 <= k < |ps| - 1 ensures Scans(s, ps)[k] == Before(One(ps[k], false), Scans(s, ps)[k + 1]) {
      assert SeparatedAt(s, ps, k);
      ScansStep(s, ps, k);
    }
    ScansLast(s, ps);
  }

  /** What is seen is found. */
  lemma {:induction false} ScanSeen(s: string, ps: seq<Pair>)
    requires AllSeen(s, ps)
    ensures Scans(s, ps)[0] == MapSplit(Keys(ps), Values(ps), Blank(s, ps[|ps| - 1].end + 1))
  {
    ScansLinked(s, ps);
    Collected(ps, Scans(s, ps), Blank(s, ps[|ps| - 1].end + 1), 0);
    assert Keys(ps)[0..] == Keys(ps) && Values(ps)[0..] == Values(ps);
  }

  // ----- the braces -----

  lemma {:induction false} OpenAt(s: string, i: nat, k: nat)
    requires i < k < |s| && AllSpace(s[..i]) && s[i] == '{' && AllSpace(s[i + 1..k]) && !IsSpace(s[k])
    ensures SkipSpace(s, 0) == i && SkipSpace(s, i + 1) == k
  {
    GapSkipped(s, 0, s[..i]);
    GapSkipped(s, i + 1, s[i + 1..k]);
  }

  lemma {:induction false} BraceBegins(s: string, i: nat, k: nat)
    requires i < k < |s| && AllSpace(s[..i]) && s[i] == '{' && AllSpace(s[i + 1..k]) && !IsSpace(s[k])
    ensures BraceStart(s) == if s[k] == '}' then None else Some(k)
    ensures EmptyBraces(s) <==> s[k] == '}' && SkipSpace(s, k + 1) == |s|
  {
    OpenAt(s, i, k);
  }

  /** Where the scan begins and what stands before it. */
  lemma {:induction false} BraceIsOpen(s: string) returns (i: nat)
    requires BraceStart(s).Some?
    ensures i < BraceStart(s).value < |s| && AllSpace(s[..i]) && s[i] == '{'
    ensures SkipSpace(s, i + 1) == BraceStart(s).value && s[BraceStart(s).value] != '}'
  {
    i := SkipSpace(s, 0);
    SkipsTo(s, 0);
    assert s[0..i] == s[..i];
  }

  /** Empty braces, and nothing but white space behind them. */
  ghost predicate GoodEmpty(s: string, i: nat, j: nat) {
    EmptyText(s, i, j) && AllSpace(s[j + 1..])
  }

  lemma {:induction false} EmptyBracesIff(s: string)
    ensures EmptyBraces(s) <==> exists i: nat, j: nat :: GoodEmpty(s, i, j)
  {
    forall i: nat, j: nat | GoodEmpty(s, i, j) ensures EmptyBraces(s) {
      BraceBegins(s, i, j);
      RestIsSpace(s, j + 1);
    }
    if EmptyBraces(s) {
      var i := SkipSpace(s, 0);
      var j := SkipSpace(s, i + 1);
      EmptyIs(s, i, j);
    }
  }

  lemma {:induction false} EmptyIs(s: string, i: nat, j: nat)
    requires EmptyBraces(s) && i == SkipSpace(s, 0) && j == SkipSpace(s, i + 1)
    ensures GoodEmpty(s, i, j)
  {
    SkipsTo(s, 0);
    SkipsTo(s, i + 1);
    RestIsSpace(s, j + 1);
    assert s[0..i] == s[..i];
  }

  /** Of a map text exactly the keys and values are found, and the verdict is whether only white space
      follows. */
  lemma {:induction false} MapFinds(s: string, i: nat, ps: seq<Pair>)
    requires MapText(s, i, ps)
    ensures SplitMap(s) == MapSplit(Keys(ps), Values(ps), Blank(s, ps[|ps| - 1].end + 1))
  {
    MapOpens(s, i, ps);
    PairsSeen(s, i + 1, ps);
    ScanSeen(s, ps);
  }

  lemma {:induction false} MapOpens(s: string, i: nat, ps: seq<Pair>)
    requires MapText(s, i, ps)
    ensures SplitMap(s) == Scans(s, ps)[0]
  {
    PairInside(s, i + 1, ps, 0);
    BraceBegins(s, i, ps[0].key);
    PairBegins(s, ps[0]);
  }

  // ----- and back -----

  lemma {:induction false} EntryIsPair(s: string, i: nat) returns (p: Pair)
    requires i <= |s| && SkipSpace(s, i) < |s| && EntryAt(s, SkipSpace(s, i)).Both?
    ensures p.start == i && PairAt(s, p) && Seen(s, p)
  {
    var k := SkipSpace(s, i);
    var j := FindStop(s, k, true).value;
    var v := SkipSpace(s, j + 1);
    var e := FindStop(s, v, false).value;
    SkipsTo(s, i);
    SkipsTo(s, j + 1);
    var keyChunks := ChunksBefore(s, k, true);
    var valueChunks := ChunksBefore(s, v, false);
    p := Pair(i, k, j, v, e, keyChunks, valueChunks);
  }

  lemma {:induction false} ChunksBefore(s: string, i: nat, isKey: bool) returns (cs: seq<Chunk>)
    requires FindStop(s, i, isKey).Some?
    ensures s[i..FindStop(s, i, isKey).value] == Text(cs) && ChunksOk(cs, StopPlace(isKey), true)
  {
    cs := StopIsMatch(s, i, isKey, true);
    HoldsSlice(s, i, FindStop(s, i, isKey).value, Text(cs));
  }

  lemma {:induction false} PairsOne(s: string, p: Pair)
    requires PairAt(s, p) && s[p.end] == '}'
    ensures PairsAt(s, p.start, [p])
  {
  }

  lemma {:induction false} PairsCons(s: string, p: Pair, rest: seq<Pair>)
    requires PairAt(s, p) && s[p.end] == ',' && PairsAt(s, p.end + 1, rest)
    ensures PairsAt(s, p.start, [p] + rest)
  {
    SeparatedCons(s, p, rest);
    AllPairsCons(s, p, rest);
  }

  lemma {:induction false} AllPairsCons(s: string, p: Pair, rest: seq<Pair>)
    requires PairAt(s, p) && AllPairs(s, rest)
    ensures AllPairs(s, [p] + rest)
  {
  }

  lemma {:induction false} SeparatedCons(s: string, p: Pair, rest: seq<Pair>)
    requires rest != [] && Separated(s, rest) && p.end < |s| && s[p.end] == ',' && rest[0].start == p.end + 1
    ensures Separated(s, [p] + rest)
  {
    var ps := [p] + rest;
    forall n | 0 <= n < |ps| - 1 ensures SeparatedAt(s, ps, n) {
      assert ps[n + 1] == rest[n] && (n > 0 ==> ps[n] == rest[n - 1] && SeparatedAt(s, rest, n - 1));
    }
  }

  /** Pairs are seen from `start` on up to the end of the text. */
  ghost predicate SeenAs(s: string, ps: seq<Pair>, start: nat, keys: seq<Range>, values: seq<Range>) {
    && AllSeen(s, ps) && ps[0].start == start && ps[|ps| - 1].end + 1 == |s|
    && Keys(ps) == keys && Values(ps) == values
  }

  lemma {:induction false} SeenOne(s: string, p: Pair)
    requires Seen(s, p) && s[p.end] == '}' && p.end + 1 == |s|
    ensures SeenAs(s, [p], p.start, [Range(p.key, p.sign)], [Range(p.value, p.end)])
  {
  }

  lemma {:induction false} SeenCons(s: string, p: Pair, rest: seq<Pair>, keys: seq<Range>, values: seq<Range>)
    requires Seen(s, p) && s[p.end] == ',' && SeenAs(s, rest, p.end + 1, keys, values)
    ensures SeenAs(s, [p] + rest, p.start, [Range(p.key, p.sign)] + keys, [Range(p.value, p.end)] + values)
  {
    SeparatedCons(s, p, rest);
    EachSeenCons(s, p, rest);
    RangesCons(p, rest);
  }

  lemma {:induction false} EachSeenCons(s: string, p: Pair, rest: seq<Pair>)
    requires Seen(s, p) && EachSeen(s, rest)
    ensures EachSeen(s, [p] + rest)
  {
    forall n | 0 <= n < |rest| + 1 ensures Seen(s, ([p] + rest)[n]) {
      assert n > 0 ==> ([p] + rest)[n] == rest[n - 1];
    }
  }

  lemma {:induction false} RangesCons(p: Pair, rest: seq<Pair>)
    ensures Keys([p] + rest) == [Range(p.key, p.sign)] + Keys(rest)
    ensures Values([p] + rest) == [Range(p.value, p.end)] + Values(rest)
  {
  }

  /** Nothing but white space behind the last pair. */
  ghost predicate Complete(s: string, ps: seq<Pair>) {
    ps != [] && Blank(s, ps[|ps| - 1].end + 1)
  }

  lemma {:induction false} CompleteOne(s: string, p: Pair)
    requires Seen(s, p) && s[p.end] == '}' && ScanFrom(s, p.start).ok
    ensures Complete(s, [p])
  {
    LastFound(s, p);
  }

  lemma {:induction false} CompleteCons(s: string, p: Pair, rest: seq<Pair>)
    requires Complete(s, rest)
    ensures Complete(s, [p] + rest)
  {
  }

  lemma {:induction false} MoreBehind(s: string, p: Pair)
    requires Seen(s, p) && s[p.end] == ',' && ScanFrom(s, p.start).ok
    ensures ScanFrom(s, p.end + 1).ok
  {
    MoreFound(s, p);
  }

  lemma {:induction false} GoodEntry(s: string, i: nat)
    requires ScanMap(s, i).ok
    ensures i < |s| && EntryAt(s, i).Both?
  {
  }

  /** What the scan accepts is made of pairs. */
  lemma {:induction false} ScanIsPairs(s: string, i: nat) returns (ps: seq<Pair>)
    requires i <= |s| && ScanFrom(s, i).ok
    ensures PairsAt(s, i, ps) && Complete(s, ps) && ps[0].key == SkipSpace(s, i)
    decreases |s| - i
  {
    GoodEntry(s, SkipSpace(s, i));
    var p := EntryIsPair(s, i);
    if s[p.end] == '}' {
      CompleteOne(s, p);
      PairsOne(s, p);
      return [p];
    }
    MoreBehind(s, p);
    var rest := ScanIsPairs(s, p.end + 1);
    PairsCons(s, p, rest);
    CompleteCons(s, p, rest);
    ps := [p] + rest;
  }

  /** A map text with nothing but white space behind it. */
  ghost predicate GoodMap(s: string, i: nat, ps: seq<Pair>) {
    MapText(s, i, ps) && Complete(s, ps)
  }

  lemma {:induction false} MapIsGood(s: string) returns (i: nat, ps: seq<Pair>)
    requires SplitMap(s).ok && BraceStart(s).Some?
    ensures GoodMap(s, i, ps)
  {
    i := BraceIsOpen(s);
    ps := ScanIsPairs(s, i + 1);
  }

  /** The verdict is good exactly for map texts and empty braces with nothing but white space behind them. */
  lemma {:induction false} MapGoodIff(s: string)
    ensures SplitMap(s).ok <==>
            (exists i: nat, ps :: GoodMap(s, i, ps)) || (exists i: nat, j: nat :: GoodEmpty(s, i, j))
  {
    EmptyBracesIff(s);
    if SplitMap(s).ok && BraceStart(s).Some? {
      var i, ps := MapIsGood(s);
    }
    forall i: nat, ps | GoodMap(s, i, ps) ensures SplitMap(s).ok { MapFinds(s, i, ps); }
    forall i: nat, j: nat | GoodEmpty(s, i, j) ensures SplitMap(s).ok { BraceBegins(s, i, j); }
  }
}
