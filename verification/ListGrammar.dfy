/** The grammar of list texts: what the parts of a list are, without reference to the scanner. */
module ListGrammar {
  import opened NestedText
  import opened NestedScanner
  import opened TextChunks

  /** A part of a list: white space from `start` up to `from`, and chunks up to `end`. */
  datatype Part = Part(start: nat, from: nat, end: nat, chunks: seq<Chunk>)

  /** A quote at the beginning that is not closed anywhere in the text is a bare character. */
  ghost predicate OpensOk(s: string, i: nat, cs: seq<Chunk>) {
    cs != [] && cs[0].Bare? && IsQuote(cs[0].c) && i < |s| ==> cs[0].c !in s[i + 1..]
  }

  ghost predicate PartAt(s: string, p: Part) {
    && p.start <= p.from <= p.end < |s|
    && AllSpace(s[p.start..p.from]) && !IsSpace(s[p.from])
    && s[p.from..p.end] == Text(p.chunks) && ChunksOk(p.chunks, InList, true) && OpensOk(s, p.from, p.chunks)
  }

  /** Parts from `i` on, with commas between them and a close bracket behind the last. */
  ghost predicate PartsAt(s: string, i: nat, ps: seq<Part>) {
    && ps != [] && ps[0].start == i
    && (forall n :: 0 <= n < |ps| ==> PartAt(s, ps[n]))
    && (forall n :: 0 <= n < |ps| - 1 ==> s[ps[n].end] == ',' && ps[n + 1].start == ps[n].end + 1)
    && s[ps[|ps| - 1].end] == ']'
  }

  /** A list: white space, an open bracket at `i`, parts and the close bracket. */
  ghost predicate ListText(s: string, i: nat, ps: seq<Part>) {
    i < |s| && AllSpace(s[..i]) && s[i] == '[' && PartsAt(s, i + 1, ps)
  }

  /** One empty part and no more. */
  predicate NoParts(ps: seq<Part>) {
    |ps| == 1 && ps[0].chunks == []
  }

  /** Where the parts are, without the white space before them. */
  function Ranges(ps: seq<Part>): (r: seq<Range>)
    ensures |r| == |ps|
  {
    seq(|ps|, n requires 0 <= n < |ps| => Range(ps[n].from, ps[n].end))
  }

  // ----- chunk by chunk -----

  lemma {:induction false} ScanBehindBrackets(s: string, i: nat, j: nat, start: nat, first: bool, seen: bool)
    requires start <= i < |s| && IsOpen(s[i]) && Close(s, i + 1, Closer(s[i])) == Some(j)
    ensures ScanList(s, i, start, first, seen) == ScanList(s, j + 1, start, false, seen)
  {
  }

  lemma {:induction false} ScanBehindQuotes(s: string, i: nat, j: nat, start: nat, seen: bool)
    requires start <= i < |s| && IsQuote(s[i]) && j == CloseQuote(s, i + 1, s[i]) < |s|
    ensures ScanList(s, i, start, true, seen) == ScanList(s, j + 1, start, false, seen)
  {
  }

  lemma {:induction false} ScanBehindBare(s: string, i: nat, start: nat, first: bool, seen: bool)
    requires start <= i < |s| && !IsOpen(s[i]) && !Ends(InList, s[i])
    requires IsQuote(s[i]) && first ==> CloseQuote(s, i + 1, s[i]) == |s|
    ensures ScanList(s, i, start, first, seen) == ScanList(s, i + 1, start, false, seen)
  {
  }

  lemma {:induction false} ListPasses(s: string, i: nat, c: Chunk, start: nat, first: bool, seen: bool)
    requires start <= i && Holds(s, i, ChunkText(c)) && ChunkOk(c, InList, first) && (first ==> OpensOk(s, i, [c]))
    ensures ScanList(s, i, start, first, seen) == ScanList(s, i + |ChunkText(c)|, start, false, seen)
  {
    match c
    case Bare(x) =>
      HoldsAt(s, i, [x], 0);
      NoCloseQuote(s, i + 1, x);
      ScanBehindBare(s, i, start, first, seen);
    case InQuotes(q, text) =>
      PassQuotes(s, i, q, text);
      ScanBehindQuotes(s, i, i + 1 + |text|, start, seen);
    case InBrackets(open, items) =>
      PassBrackets(s, i, open, items);
      ScanBehindBrackets(s, i, i + 1 + |Render(items)|, start, first, seen);
  }

  lemma {:induction false} ListPassesFirst(s: string, i: nat, cs: seq<Chunk>, start: nat, first: bool, seen: bool)
    returns (k: nat)
    requires start <= i && cs != [] && Holds(s, i, Text(cs)) && ChunksOk(cs, InList, first)
    requires first ==> OpensOk(s, i, cs)
    ensures i < k && Holds(s, k, Text(cs[1..])) && k + |Text(cs[1..])| == i + |Text(cs)|
    ensures ScanList(s, i, start, first, seen) == ScanList(s, k, start, false, seen)
  {
    TextSplits(s, i, cs);
    ListPasses(s, i, cs[0], start, first, seen);
    k := i + |ChunkText(cs[0])|;
  }

  lemma {:induction false} ListPassesAll(s: string, i: nat, cs: seq<Chunk>, start: nat, first: bool, seen: bool)
    requires start <= i && Holds(s, i, Text(cs)) && ChunksOk(cs, InList, first) && (first ==> OpensOk(s, i, cs))
    ensures ScanList(s, i, start, first, seen) == ScanList(s, i + |Text(cs)|, start, first && cs == [], seen)
    decreases cs
  {
    if cs != [] {
      var k := ListPassesFirst(s, i, cs, start, first, seen);
      ListPassesAll(s, k, cs[1..], start, false, seen);
    }
  }

  // ----- the parts -----

  /** Scanning from behind the open bracket or a comma. */
  function ScanFrom(s: string, i: nat, seen: bool): Split<Range> {
    var k := SkipSpace(s, i);
    ScanList(s, k, k, true, seen)
  }

  lemma {:induction false} ScanPart(s: string, p: Part, seen: bool)
    requires PartAt(s, p)
    ensures ScanFrom(s, p.start, seen) == ScanList(s, p.end, p.from, p.chunks == [], seen)
  {
    PartBegins(s, p);
    PartHeld(s, p);
    ListPassesAll(s, p.from, p.chunks, p.from, true, seen);
  }

  lemma {:induction false} PartBegins(s: string, p: Part)
    requires PartAt(s, p)
    ensures SkipSpace(s, p.start) == p.from
  {
    GapSkipped(s, p.start, s[p.start..p.from]);
  }

  lemma {:induction false} PartHeld(s: string, p: Part)
    requires PartAt(s, p)
    ensures Holds(s, p.from, Text(p.chunks)) && p.from + |Text(p.chunks)| == p.end
  {
    HoldsSlice(s, p.from, p.end, Text(p.chunks));
  }

  lemma {:induction false} ScanLast(s: string, e: nat, start: nat, first: bool, seen: bool)
    requires start <= e < |s| && s[e] == ']'
    ensures ScanList(s, e, start, first, seen) ==
            Split(if start < e || seen then [Range(start, e)] else [], SkipSpace(s, e + 1) == |s|)
  {
  }

  lemma {:induction false} ScanMore(s: string, e: nat, start: nat, first: bool, seen: bool)
    requires start <= e < |s| && s[e] == ','
    ensures ScanList(s, e, start, first, seen) == Prepend([Range(start, e)], ScanFrom(s, e + 1, true))
  {
  }

  lemma {:induction false} LastFound(s: string, p: Part, seen: bool)
    requires PartAt(s, p) && s[p.end] == ']'
    ensures ScanFrom(s, p.start, seen) ==
            Split(if p.chunks == [] && !seen then [] else [Range(p.from, p.end)], SkipSpace(s, p.end + 1) == |s|)
  {
    ScanPart(s, p, seen);
    ScanLast(s, p.end, p.from, p.chunks == [], seen);
    EmptyText(p.chunks);
  }

  lemma {:induction false} EmptyText(cs: seq<Chunk>)
    ensures Text(cs) == "" <==> cs == []
  {
  }

  lemma {:induction false} MoreFound(s: string, p: Part, seen: bool)
    requires PartAt(s, p) && s[p.end] == ','
    ensures ScanFrom(s, p.start, seen) == Prepend([Range(p.from, p.end)], ScanFrom(s, p.end + 1, true))
  {
    ScanPart(s, p, seen);
    ScanMore(s, p.end, p.from, p.chunks == [], seen);
  }

  /** Results of which each puts its part before the next. */
  ghost predicate Linked(ps: seq<Part>, found: seq<Split<Range>>) {
    && |found| == |ps| > 0
    && forall k :: 0 <= k < |ps| - 1 ==> found[k] == Prepend([Range(ps[k].from, ps[k].end)], found[k + 1])
  }

  lemma {:induction false} Collected(ps: seq<Part>, found: seq<Split<Range>>, n: nat)
    requires Linked(ps, found) && n < |ps| && found[|ps| - 1].parts == [Range(ps[|ps| - 1].from, ps[|ps| - 1].end)]
    ensures found[n] == Split(Ranges(ps)[n..], found[|ps| - 1].ok)
    decreases |ps| - n
  {
    if n < |ps| - 1 {
      Collected(ps, found, n + 1);
      assert Ranges(ps)[n..] == [Range(ps[n].from, ps[n].end)] + Ranges(ps)[n + 1..];
    }
  }

  lemma {:induction false} PartInside(s: string, i: nat, ps: seq<Part>, n: nat)
    requires PartsAt(s, i, ps) && n < |ps|
    ensures PartAt(s, ps[n]) && ps[n].end < |s|
    ensures if n == |ps| - 1 then s[ps[n].end] == ']' else s[ps[n].end] == ',' && ps[n + 1].start == ps[n].end + 1
  {
  }

  /** The results of scanning from each part on. */
  function Scans(s: string, ps: seq<Part>): (found: seq<Split<Range>>)
    ensures |found| == |ps|
  {
    seq(|ps|, n requires 0 <= n < |ps| => ScanFrom(s, ps[n].start, n > 0))
  }

  lemma {:induction false} ScansStep(s: string, i: nat, ps: seq<Part>, k: nat)
    requires PartsAt(s, i, ps) && k < |ps| - 1
    ensures Scans(s, ps)[k] == Prepend([Range(ps[k].from, ps[k].end)], Scans(s, ps)[k + 1])
  {
    PartInside(s, i, ps, k);
    MoreFound(s, ps[k], k > 0);
  }

  lemma {:induction false} ScansLinked(s: string, i: nat, ps: seq<Part>)
    requires PartsAt(s, i, ps)
    ensures Linked(ps, Scans(s, ps))
  {
    forall k | 0 <= k < |ps| - 1
      ensures Scans(s, ps)[k] == Prepend([Range(ps[k].from, ps[k].end)], Scans(s, ps)[k + 1])
    {
      ScansStep(s, i, ps, k);
    }
  }

  lemma {:induction false} ScansLast(s: string, i: nat, ps: seq<Part>)
    requires PartsAt(s, i, ps)
    ensures var p := ps[|ps| - 1];
            Scans(s, ps)[|ps| - 1] ==
            Split(if NoParts(ps) then [] else [Range(p.from, p.end)], SkipSpace(s, p.end + 1) == |s|)
  {
    PartInside(s, i, ps, |ps| - 1);
    LastFound(s, ps[|ps| - 1], |ps| > 1);
  }

  /** The scan finds exactly the parts, none if there is only an empty one. */
  lemma {:induction false} ScanFinds(s: string, i: nat, ps: seq<Part>)
    requires PartsAt(s, i, ps)
    ensures Scans(s, ps)[0] ==
            Split(if NoParts(ps) then [] else Ranges(ps), SkipSpace(s, ps[|ps| - 1].end + 1) == |s|)
  {
    ScansLinked(s, i, ps);
    ScansLast(s, i, ps);
    if !NoParts(ps) {
      Collected(ps, Scans(s, ps), 0);
      assert Ranges(ps)[0..] == Ranges(ps);
    }
  }

  lemma {:induction false} OpenAt(s: string, i: nat)
    requires i < |s| && AllSpace(s[..i]) && !IsSpace(s[i])
    ensures SkipSpace(s, 0) == i
  {
    GapSkipped(s, 0, s[..i]);
  }

  lemma {:induction false} SplitFrom(s: string, i: nat)
    requires SkipSpace(s, 0) == i < |s| && s[i] == '['
    ensures ListSplit(s) == ScanFrom(s, i + 1, false)
  {
  }

  /** Of a list text exactly the parts are found, none if there is only an empty one, and the verdict is
      whether only white space follows. */
  lemma {:induction false} ListFinds(s: string, i: nat, ps: seq<Part>)
    requires ListText(s, i, ps)
    ensures ListSplit(s) ==
            Split(if NoParts(ps) then [] else Ranges(ps), AllSpace(s[ps[|ps| - 1].end + 1..]))
  {
    OpenAt(s, i);
    SplitFrom(s, i);
    ScanFinds(s, i + 1, ps);
    PartInside(s, i + 1, ps, |ps| - 1);
    RestIsSpace(s, ps[|ps| - 1].end + 1);
  }

  // ----- and back -----

  lemma {:induction false} ListChunk(s: string, i: nat, start: nat, first: bool, seen: bool) returns (c: Chunk)
    requires start <= i < |s| && !Ends(InList, s[i]) && ScanList(s, i, start, first, seen).ok
    ensures Holds(s, i, ChunkText(c)) && ChunkOk(c, InList, first) && (first ==> OpensOk(s, i, [c]))
    ensures ScanList(s, i + |ChunkText(c)|, start, false, seen).ok
  {
    if IsOpen(s[i]) {
      c := BracketedChunk(s, i, InList, first);
    } else if IsQuote(s[i]) && first && CloseQuote(s, i + 1, s[i]) < |s| {
      c := QuotedChunk(s, i, InList, first);
    } else {
      c := Bare(s[i]);
      NoCloseQuote(s, i + 1, s[i]);
    }
    ListPasses(s, i, c, start, first, seen);
  }

  lemma {:induction false} ListChunks(s: string, i: nat, start: nat, first: bool, seen: bool) returns (cs: seq<Chunk>)
    requires start <= i && ScanList(s, i, start, first, seen).ok
    ensures Holds(s, i, Text(cs)) && ChunksOk(cs, InList, first) && (first ==> OpensOk(s, i, cs))
    ensures i + |Text(cs)| < |s| && Ends(InList, s[i + |Text(cs)|])
    decreases |s| - i
  {
    if Ends(InList, s[i]) { return []; }
    var c := ListChunk(s, i, start, first, seen);
    var k := i + |ChunkText(c)|;
    var rest := ListChunks(s, k, start, false, seen);
    cs := ChunksCons(s, i, c, rest, InList, first);
    assert i + |Text(cs)| == k + |Text(rest)|;
  }

  lemma {:induction false} FirstPart(s: string, i: nat, seen: bool) returns (p: Part)
    requires i <= |s| && ScanFrom(s, i, seen).ok
    ensures p.start == i && PartAt(s, p) && Ends(InList, s[p.end])
  {
    var k := SkipSpace(s, i);
    SkipsTo(s, i);
    var cs := ListChunks(s, k, k, true, seen);
    var e := k + |Text(cs)|;
    HoldsSlice(s, k, e, Text(cs));
    p := Part(i, k, e, cs);
  }

  lemma {:induction false} PartsOne(s: string, p: Part)
    requires PartAt(s, p) && s[p.end] == ']'
    ensures PartsAt(s, p.start, [p])
  {
  }

  lemma {:induction false} PartsCons(s: string, p: Part, rest: seq<Part>) returns (ps: seq<Part>)
    requires PartAt(s, p) && s[p.end] == ',' && PartsAt(s, p.end + 1, rest)
    ensures PartsAt(s, p.start, ps) && ps[|ps| - 1] == rest[|rest| - 1]
  {
    ps := [p] + rest;
    forall n | 0 <= n < |ps| - 1 ensures s[ps[n].end] == ',' && ps[n + 1].start == ps[n].end + 1 {
      assert ps[n + 1] == rest[n] && (n > 0 ==> ps[n] == rest[n - 1]);
    }
  }

  /** What the scan accepts is made of parts. */
  lemma {:induction false} ScanIsParts(s: string, i: nat, seen: bool) returns (ps: seq<Part>)
    requires i <= |s| && ScanFrom(s, i, seen).ok
    ensures PartsAt(s, i, ps) && SkipSpace(s, ps[|ps| - 1].end + 1) == |s|
    decreases |s| - i
  {
    var p := FirstPart(s, i, seen);
    if s[p.end] == ']' {
      LastFound(s, p, seen);
      PartsOne(s, p);
      return [p];
    }
    MoreFound(s, p, seen);
    var rest := ScanIsParts(s, p.end + 1, true);
    ps := PartsCons(s, p, rest);
  }

  lemma {:induction false} ListOpens(s: string) returns (i: nat)
    requires ListSplit(s).ok
    ensures i < |s| && AllSpace(s[..i]) && s[i] == '[' && ScanFrom(s, i + 1, false).ok
  {
    i := SkipSpace(s, 0);
    SkipsTo(s, 0);
    assert s[0..i] == s[..i];
    SplitFrom(s, i);
  }

  /** A list text with nothing but white space behind it. */
  ghost predicate GoodList(s: string, i: nat, ps: seq<Part>) {
    ListText(s, i, ps) && ps[|ps| - 1].end < |s| && AllSpace(s[ps[|ps| - 1].end + 1..])
  }

  lemma {:induction false} ListIsGood(s: string) returns (i: nat, ps: seq<Part>)
    requires ListSplit(s).ok
    ensures GoodList(s, i, ps)
  {
    i := ListOpens(s);
    ps := ScanIsParts(s, i + 1, false);
    PartInside(s, i + 1, ps, |ps| - 1);
    RestIsSpace(s, ps[|ps| - 1].end + 1);
  }

  /** The verdict is good exactly for list texts with nothing but white space behind them. */
  lemma {:induction false} ListGoodIff(s: string)
    ensures ListSplit(s).ok <==> exists i: nat, ps :: GoodList(s, i, ps)
  {
    if ListSplit(s).ok {
      var i, ps := ListIsGood(s);
    }
    forall i: nat, ps | GoodList(s, i, ps) ensures ListSplit(s).ok { ListFinds(s, i, ps); }
  }

  // ----- the text of a part -----

  lemma {:induction false} SkipsUpTo(s: string, i: nat, end: nat)
    requires i <= end <= |s|
    ensures var a := SkipSpaceTo(s, i, end); AllSpace(s[i..a]) && (a < end ==> !IsSpace(s[a]))
    decreases end - i
  {
    if i < end && IsSpace(s[i]) {
      SkipsUpTo(s, i + 1, end);
      var a := SkipSpaceTo(s, i, end);
      assert s[i..a] == [s[i]] + s[i + 1..a];
    }
  }

  lemma {:induction false} TrimsBack(s: string, i: nat, j: nat)
    requires i <= j <= |s|
    ensures var b := TrimRight(s, i, j); AllSpace(s[b..j]) && (i < b ==> !IsSpace(s[b - 1]))
    decreases j
  {
    if i < j && IsSpace(s[j - 1]) {
      TrimsBack(s, i, j - 1);
      var b := TrimRight(s, i, j);
      assert s[b..j] == s[b..j - 1] + [s[j - 1]];
    }
  }

  /** What is cast is the text of the part up to white space at both ends. */
  lemma {:induction false} TrimmedIs(s: string, r: Range) returns (a: nat, b: nat)
    requires r.start <= r.end <= |s|
    ensures r.start <= a <= b <= r.end && Trimmed(s, r) == s[a..b]
    ensures AllSpace(s[r.start..a]) && AllSpace(s[b..r.end]) && (a < b ==> !IsSpace(s[a]) && !IsSpace(s[b - 1]))
  {
    a := SkipSpaceTo(s, r.start, r.end);
    b := TrimRight(s, a, r.end);
    SkipsUpTo(s, r.start, r.end);
    TrimsBack(s, a, r.end);
  }
}
