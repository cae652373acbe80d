/** Texts between separators as sequences of chunks: bare characters, quoted texts and bracketed texts. */
module TextChunks {
  import opened NestedText
  import opened NestedScanner

  datatype Chunk = Bare(c: char) | InQuotes(q: char, text: string) | InBrackets(open: char, items: seq<Item>)

  function ChunkText(c: Chunk): (r: string)
    ensures r != ""
  {
    match c
    case Bare(c) => [c]
    case InQuotes(q, text) => [q] + text + [q]
    case InBrackets(open, items) => [open] + Render(items) + [Closer(open)]
  }

  function Text(cs: seq<Chunk>): string {
    if cs == [] then "" else ChunkText(cs[0]) + Text(cs[1..])
  }

  datatype Place = InList | InKey | InValue

  predicate Ends(place: Place, c: char) {
    match place
    case InList => c == ',' || c == ']'
    case InKey => c == '='
    case InValue => c == ',' || c == '}'
  }

  /** Separators and open brackets are not bare. In a key or value every quote begins a quoted text; in a
      list only one at the beginning of a part does. */
  ghost predicate ChunkOk(c: Chunk, place: Place, first: bool) {
    match c
    case Bare(x) => !IsOpen(x) && !Ends(place, x) && (IsQuote(x) ==> place.InList?)
    case InQuotes(q, text) => IsQuote(q) && q !in text && (place.InList? ==> first)
    case InBrackets(open, items) => IsOpen(open) && ItemsOk(items, Closer(open))
  }

  ghost predicate ChunksOk(cs: seq<Chunk>, place: Place, first: bool) {
    cs == [] || (ChunkOk(cs[0], place, first) && ChunksOk(cs[1..], place, false))
  }

  lemma {:induction false} ChunksCons(s: string, i: nat, c: Chunk, rest: seq<Chunk>, place: Place, first: bool)
    returns (cs: seq<Chunk>)
    requires ChunkOk(c, place, first) && ChunksOk(rest, place, false)
    requires Holds(s, i, ChunkText(c)) && Holds(s, i + |ChunkText(c)|, Text(rest))
    ensures ChunksOk(cs, place, first) && Holds(s, i, Text(cs)) && |Text(cs)| == |ChunkText(c)| + |Text(rest)|
    ensures cs != [] && cs[0] == c
  {
    cs := [c] + rest;
    assert cs[1..] == rest;
    HoldsSplit(s, i, ChunkText(c), Text(rest));
  }

  lemma {:induction false} TextSplits(s: string, i: nat, cs: seq<Chunk>)
    requires cs != [] && Holds(s, i, Text(cs))
    ensures var k := i + |ChunkText(cs[0])|;
            Holds(s, i, ChunkText(cs[0])) && Holds(s, k, Text(cs[1..])) && k + |Text(cs[1..])| == i + |Text(cs)|
  {
    HoldsSplit(s, i, ChunkText(cs[0]), Text(cs[1..]));
  }

  // ----- single chunks -----

  lemma {:induction false} PassQuotes(s: string, i: nat, q: char, text: string)
    requires Holds(s, i, [q] + text + [q]) && q !in text
    ensures i + |text| + 2 <= |s| && s[i] == q && CloseQuote(s, i + 1, q) == i + 1 + |text|
  {
    Bracketed(s, i, q, text, q);
    CloseQuoteFinds(s, i + 1, text, q);
  }

  lemma {:induction false} PassBrackets(s: string, i: nat, open: char, items: seq<Item>)
    requires Holds(s, i, [open] + Render(items) + [Closer(open)]) && IsOpen(open) && ItemsOk(items, Closer(open))
    ensures i + |Render(items)| + 2 <= |s| && s[i] == open
    ensures Close(s, i + 1, Closer(open)) == Some(i + 1 + |Render(items)|)
  {
    Bracketed(s, i, open, Render(items), Closer(open));
    CloseFinds(s, i + 1, items, Closer(open));
  }

  lemma {:induction false} NoCloseQuote(s: string, i: nat, q: char)
    requires i <= |s|
    ensures CloseQuote(s, i, q) == |s| <==> q !in s[i..]
    decreases |s| - i
  {
    if i < |s| {
      assert s[i..] == [s[i]] + s[i + 1..];
      NoCloseQuote(s, i + 1, q);
    }
  }

  lemma {:induction false} QuotedChunk(s: string, i: nat, place: Place, first: bool) returns (c: Chunk)
    requires i < |s| && IsQuote(s[i]) && CloseQuote(s, i + 1, s[i]) < |s| && (place.InList? ==> first)
    ensures Holds(s, i, ChunkText(c)) && ChunkOk(c, place, first)
    ensures i + |ChunkText(c)| == CloseQuote(s, i + 1, s[i]) + 1
  {
    var q := CloseQuote(s, i + 1, s[i]);
    NoQuoteBefore(s, i + 1, s[i]);
    c := InQuotes(s[i], s[i + 1..q]);
    SliceEnds(s, i, q);
  }

  lemma {:induction false} BracketedChunk(s: string, i: nat, place: Place, first: bool) returns (c: Chunk)
    requires i < |s| && IsOpen(s[i]) && Close(s, i + 1, Closer(s[i])).Some?
    ensures Holds(s, i, ChunkText(c)) && ChunkOk(c, place, first)
    ensures i + |ChunkText(c)| == Close(s, i + 1, Closer(s[i])).value + 1
  {
    var j := Close(s, i + 1, Closer(s[i])).value;
    var items := CloseIsMatch(s, i + 1, Closer(s[i]));
    c := InBrackets(s[i], items);
    SliceEnds(s, i, j);
  }

  // ----- the end of a key or value -----

  function StopPlace(isKey: bool): Place {
    if isKey then InKey else InValue
  }

  lemma {:induction false} StopBehindBrackets(s: string, i: nat, j: nat, isKey: bool)
    requires i < |s| && IsOpen(s[i]) && Close(s, i + 1, Closer(s[i])) == Some(j)
    ensures FindStop(s, i, isKey) == FindStop(s, j + 1, isKey)
  {
  }

  lemma {:induction false} StopBehindQuotes(s: string, i: nat, j: nat, isKey: bool)
    requires i < |s| && IsQuote(s[i]) && j == CloseQuote(s, i + 1, s[i]) < |s|
    ensures FindStop(s, i, isKey) == FindStop(s, j + 1, isKey)
  {
  }

  lemma {:induction false} StopBehindBare(s: string, i: nat, isKey: bool)
    requires i < |s| && !IsQuote(s[i]) && !IsOpen(s[i]) && !Stops(isKey, s[i])
    ensures FindStop(s, i, isKey) == FindStop(s, i + 1, isKey)
  {
  }

  lemma {:induction false} StopPasses(s: string, i: nat, c: Chunk, isKey: bool, first: bool)
    requires Holds(s, i, ChunkText(c)) && ChunkOk(c, StopPlace(isKey), first)
    ensures FindStop(s, i, isKey) == FindStop(s, i + |ChunkText(c)|, isKey)
  {
    match c
    case Bare(x) =>
      HoldsAt(s, i, [x], 0);
      StopBehindBare(s, i, isKey);
    case InQuotes(q, text) =>
      PassQuotes(s, i, q, text);
      StopBehindQuotes(s, i, i + 1 + |text|, isKey);
    case InBrackets(open, items) =>
      PassBrackets(s, i, open, items);
      StopBehindBrackets(s, i, i + 1 + |Render(items)|, isKey);
  }

  /** The search stops at the first separator behind chunks. */
  lemma {:induction false} StopFinds(s: string, i: nat, cs: seq<Chunk>, isKey: bool, first: bool)
    requires Holds(s, i, Text(cs)) && ChunksOk(cs, StopPlace(isKey), first)
    requires i + |Text(cs)| < |s| && Ends(StopPlace(isKey), s[i + |Text(cs)|])
    ensures FindStop(s, i, isKey) == Some(i + |Text(cs)|)
  {
    StopPassesAll(s, i, cs, isKey, first);
  }

  lemma {:induction false} StopPassesFirst(s: string, i: nat, cs: seq<Chunk>, isKey: bool, first: bool)
    returns (k: nat)
    requires cs != [] && Holds(s, i, Text(cs)) && ChunksOk(cs, StopPlace(isKey), first)
    ensures Holds(s, k, Text(cs[1..])) && k + |Text(cs[1..])| == i + |Text(cs)|
    ensures FindStop(s, i, isKey) == FindStop(s, k, isKey)
  {
    TextSplits(s, i, cs);
    StopPasses(s, i, cs[0], isKey, first);
    k := i + |ChunkText(cs[0])|;
  }

  lemma {:induction false} StopPassesAll(s: string, i: nat, cs: seq<Chunk>, isKey: bool, first: bool)
    requires Holds(s, i, Text(cs)) && ChunksOk(cs, StopPlace(isKey), first)
    ensures FindStop(s, i, isKey) == FindStop(s, i + |Text(cs)|, isKey)
    decreases cs
  {
    if cs != [] {
      var k := StopPassesFirst(s, i, cs, isKey, first);
      StopPassesAll(s, k, cs[1..], isKey, false);
    }
  }

  lemma {:induction false} StopBehind(s: string, i: nat, j: nat, cs: seq<Chunk>, isKey: bool)
    requires i <= j < |s| && s[i..j] == Text(cs) && ChunksOk(cs, StopPlace(isKey), true) && Ends(StopPlace(isKey), s[j])
    ensures FindStop(s, i, isKey) == Some(j)
  {
    HoldsSlice(s, i, j, Text(cs));
    StopFinds(s, i, cs, isKey, true);
  }

  lemma {:induction false} StopChunk(s: string, i: nat, isKey: bool, first: bool) returns (c: Chunk)
    requires i < |s| && FindStop(s, i, isKey).Some? && FindStop(s, i, isKey) != Some(i)
    ensures Holds(s, i, ChunkText(c)) && ChunkOk(c, StopPlace(isKey), first)
    ensures FindStop(s, i + |ChunkText(c)|, isKey) == FindStop(s, i, isKey)
  {
    if IsQuote(s[i]) {
      c := QuotedChunk(s, i, StopPlace(isKey), first);
    } else if IsOpen(s[i]) {
      c := BracketedChunk(s, i, StopPlace(isKey), first);
    } else {
      c := Bare(s[i]);
    }
  }

  /** And only there: what lies before the separator is made of chunks. */
  lemma {:induction false} StopIsMatch(s: string, i: nat, isKey: bool, first: bool) returns (cs: seq<Chunk>)
    requires FindStop(s, i, isKey).Some?
    ensures Holds(s, i, Text(cs)) && ChunksOk(cs, StopPlace(isKey), first)
    ensures FindStop(s, i, isKey) == Some(i + |Text(cs)|)
    decreases |s| - i
  {
    if FindStop(s, i, isKey) == Some(i) { return []; }
    var c := StopChunk(s, i, isKey, first);
    var rest := StopIsMatch(s, i + |ChunkText(c)|, isKey, false);
    cs := ChunksCons(s, i, c, rest, StopPlace(isKey), first);
  }

  // ----- positions -----

  lemma {:induction false} HoldsSlice(s: string, i: nat, j: nat, text: string)
    requires i <= j <= |s|
    ensures s[i..j] == text <==> j == i + |text| && Holds(s, i, text)
  {
    if s[i..j] == text {
      forall k | 0 <= k < |text| ensures s[i + k] == text[k] { assert s[i..j][k] == s[i + k]; }
    }
  }


  /** White space up to something else is skipped. */
  lemma {:induction false} GapSkipped(s: string, i: nat, gap: string)
    requires Holds(s, i, gap) && AllSpace(gap) && (i + |gap| < |s| ==> !IsSpace(s[i + |gap|]))
    ensures SkipSpace(s, i) == i + |gap|
    decreases gap
  {
    if gap != "" {
      HoldsAt(s, i, gap, 0);
      assert gap == gap[..1] + gap[1..];
      HoldsSplit(s, i, gap[..1], gap[1..]);
      GapSkipped(s, i + 1, gap[1..]);
    }
  }

  /** And what is skipped is white space. */
  lemma {:induction false} SkippedGap(s: string, i: nat) returns (gap: string)
    requires i <= |s|
    ensures Holds(s, i, gap) && AllSpace(gap) && i + |gap| == SkipSpace(s, i)
    ensures i + |gap| < |s| ==> !IsSpace(s[i + |gap|])
  {
    SkipsTo(s, i);
    gap := s[i..SkipSpace(s, i)];
  }

  lemma {:induction false} GapTo(s: string, i: nat, j: nat)
    requires i <= j < |s| && AllSpace(s[i..j]) && !IsSpace(s[j])
    ensures SkipSpace(s, i) == j
  {
    GapSkipped(s, i, s[i..j]);
  }
}
