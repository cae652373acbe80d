/** Struct texts that are not accepted: which error is reported, and what was found before it. */
module StructVerdicts {
  import opened NestedText
  import opened NestedScanner
  import opened TextChunks
  import opened StructGrammar
  import MapGrammar

  // ----- what can be wrong with one field -----

  ghost predicate ColonAt(s: string, i: nat, j: nat) {
    i <= j < |s| && s[j] == ':' && ':' !in s[i..j]
  }

  /** A name from `i` up to the first colon. */
  ghost predicate NameAt(s: string, i: nat, j: nat, w: Word) {
    ColonAt(s, i, j) && WordOk(w) && Padded(s[i..j], Written(w))
  }

  /** Behind the colon, white space up to `v` and a value up to a separator at `e`. */
  ghost predicate ValueAt(s: string, j: nat, v: nat, e: nat, cs: seq<Chunk>) {
    && j < v <= e < |s| && AllSpace(s[j + 1..v]) && !IsSpace(s[v])
    && s[v..e] == Text(cs) && ChunksOk(cs, InValue, true) && Ends(InValue, s[e])
  }

  /** One quote and white space behind it. */
  ghost predicate LoneQuoteIn(text: string) {
    Padded(text, "'") || Padded(text, "\"")
  }

  ghost predicate BadName(s: string, i: nat, j: nat) {
    ColonAt(s, i, j) && LoneQuoteIn(s[i..j])
  }

  ghost predicate BadValue(s: string, names: seq<string>, i: nat, j: nat, w: Word, v: nat, e: nat, cs: seq<Chunk>) {
    NameAt(s, i, j, w) && w.text in names && ValueAt(s, j, v, e, cs) && LoneQuoteIn(s[v..e])
  }

  lemma {:induction false} NameKnown(s: string, i: nat, j: nat, w: Word)
    requires NameAt(s, i, j, w)
    ensures FindColon(s, i) == Some(j) && TrimQuotes(s[i..TrimRight(s, i, j)]) == Some(w.text)
  {
    ColonIff(s, i, j);
    TextSeen(s, i, j, w);
  }

  lemma {:induction false} LoneIff(s: string, i: nat, j: nat)
    requires i <= j <= |s|
    ensures TrimQuotes(s[i..TrimRight(s, i, j)]) == None <==> LoneQuoteIn(s[i..j])
  {
    var word := s[i..TrimRight(s, i, j)];
    TrimQuotesIff(word);
    TrimRightIsPadded(s, i, j);
    if Padded(s[i..j], "'") { TrimRightFinds(s, i, j, "'"); }
    if Padded(s[i..j], "\"") { TrimRightFinds(s, i, j, "\""); }
  }

  lemma {:induction false} ValueKnown(s: string, j: nat, v: nat, e: nat, cs: seq<Chunk>)
    requires ValueAt(s, j, v, e, cs)
    ensures SkipSpace(s, j + 1) == v && FindStop(s, v, false) == Some(e)
  {
    GapTo(s, j + 1, v);
    StopBehind(s, v, e, cs, false);
  }

  /** The name is reported as unknown exactly if it stands before a colon and is none of the fields'. */
  lemma {:induction false} UnknownIff(s: string, names: seq<string>, i: nat)
    requires i < |s|
    ensures NextField(s, names, i) == NoField(UnknownField) <==>
            exists j: nat, w :: NameAt(s, i, j, w) && w.text !in names
  {
    forall j: nat, w | NameAt(s, i, j, w) && w.text !in names ensures NextField(s, names, i) == NoField(UnknownField) {
      NameKnown(s, i, j, w);
    }
    if NextField(s, names, i) == NoField(UnknownField) {
      var j := FindColon(s, i).value;
      ColonIff(s, i, j);
      var w := NameIs(s, i, j);
      assert NameAt(s, i, j, w);
    }
  }

  /** A lone quote is reported exactly if it is the name, or the value of a known field. */
  lemma {:induction false} LoneQuoteIff(s: string, names: seq<string>, i: nat)
    requires i < |s|
    ensures NextField(s, names, i) == NoField(LoneQuote) <==>
            || (exists j: nat :: BadName(s, i, j))
            || (exists j: nat, w, v: nat, e: nat, cs :: BadValue(s, names, i, j, w, v, e, cs))
  {
    forall j: nat | BadName(s, i, j) ensures NextField(s, names, i) == NoField(LoneQuote) {
      BadNameFound(s, names, i, j);
    }
    forall j: nat, w, v: nat, e: nat, cs | BadValue(s, names, i, j, w, v, e, cs)
      ensures NextField(s, names, i) == NoField(LoneQuote)
    {
      BadValueFound(s, names, i, j, w, v, e, cs);
    }
    if NextField(s, names, i) == NoField(LoneQuote) {
      LoneFound(s, names, i);
    }
  }

  lemma {:induction false} BadNameFound(s: string, names: seq<string>, i: nat, j: nat)
    requires BadName(s, i, j)
    ensures i < |s| && NextField(s, names, i) == NoField(LoneQuote)
  {
    ColonIff(s, i, j);
    LoneIff(s, i, j);
  }

  lemma {:induction false} BadValueFound(s: string, names: seq<string>, i: nat, j: nat, w: Word, v: nat, e: nat,
                                         cs: seq<Chunk>)
    requires BadValue(s, names, i, j, w, v, e, cs)
    ensures i < |s| && NextField(s, names, i) == NoField(LoneQuote)
  {
    NameKnown(s, i, j, w);
    ValueKnown(s, j, v, e, cs);
    LoneIff(s, v, e);
    FieldIsBad(s, names, i, j, w.text, v, e);
  }

  lemma {:induction false} FieldIsBad(s: string, names: seq<string>, i: nat, j: nat, name: string, v: nat, e: nat)
    requires i < |s| && FindColon(s, i) == Some(j) && TrimQuotes(s[i..TrimRight(s, i, j)]) == Some(name)
    requires name in names && SkipSpace(s, j + 1) == v && FindStop(s, v, false) == Some(e)
    requires TrimQuotes(s[v..TrimRight(s, v, e)]) == None
    ensures NextField(s, names, i) == NoField(LoneQuote)
  {
  }

  lemma {:induction false} LoneFound(s: string, names: seq<string>, i: nat)
    requires i < |s| && NextField(s, names, i) == NoField(LoneQuote)
    ensures || (exists j: nat :: BadName(s, i, j))
            || (exists j: nat, w, v: nat, e: nat, cs :: BadValue(s, names, i, j, w, v, e, cs))
  {
    var j, known := LoneParts(s, names, i);
    if known {
      LoneValue(s, names, i, j);
    } else {
      ColonIff(s, i, j);
      LoneIff(s, i, j);
      assert BadName(s, i, j);
    }
  }

  /** The name is a lone quote, or it is known and the value is one. */
  lemma {:induction false} LoneParts(s: string, names: seq<string>, i: nat) returns (j: nat, known: bool)
    requires i < |s| && NextField(s, names, i) == NoField(LoneQuote)
    ensures i <= j < |s| && FindColon(s, i) == Some(j)
    ensures known <==> TrimQuotes(s[i..TrimRight(s, i, j)]).Some?
    ensures known ==> ValueIsLone(s, names, i, j)
  {
    j := FindColon(s, i).value;
    known := TrimQuotes(s[i..TrimRight(s, i, j)]).Some?;
  }

  ghost predicate ValueIsLone(s: string, names: seq<string>, i: nat, j: nat)
    requires i <= j < |s|
  {
    var name, v := TrimQuotes(s[i..TrimRight(s, i, j)]), SkipSpace(s, j + 1);
    && name.Some? && name.value in names && FindStop(s, v, false).Some?
    && TrimQuotes(s[v..TrimRight(s, v, FindStop(s, v, false).value)]) == None
  }

  lemma {:induction false} LoneValue(s: string, names: seq<string>, i: nat, j: nat)
    requires i <= j < |s| && FindColon(s, i) == Some(j) && ValueIsLone(s, names, i, j)
    ensures exists w, v: nat, e: nat, cs :: BadValue(s, names, i, j, w, v, e, cs)
  {
    var v := SkipSpace(s, j + 1);
    var e := FindStop(s, v, false).value;
    ColonIff(s, i, j);
    var w := NameIs(s, i, j);
    var cs := ValueIs(s, j, v, e);
    LoneIff(s, v, e);
    assert BadValue(s, names, i, j, w, v, e, cs);
  }

  lemma {:induction false} ValueIs(s: string, j: nat, v: nat, e: nat) returns (cs: seq<Chunk>)
    requires j < |s| && SkipSpace(s, j + 1) == v && FindStop(s, v, false) == Some(e)
    ensures ValueAt(s, j, v, e, cs)
  {
    SkipsTo(s, j + 1);
    cs := MapGrammar.ChunksBefore(s, v, false);
  }

  // ----- what was found before -----

  /** Known fields from `i` on, each with a comma behind it. */
  ghost predicate FieldsBefore(s: string, names: seq<string>, i: nat, fs: seq<Slot>) {
    && (fs != [] ==> fs[0].start == i)
    && forall n :: 0 <= n < |fs| ==> FieldBefore(s, names, i, fs, n)
  }

  ghost predicate FieldBefore(s: string, names: seq<string>, i: nat, fs: seq<Slot>, n: nat)
    requires n < |fs|
  {
    && SlotAt(s, fs[n]) && fs[n].nameWord.text in names && s[fs[n].end] == ','
    && (n + 1 < |fs| ==> fs[n + 1].start == fs[n].end + 1)
  }

  /** Where field `n` begins, or what follows the last one. */
  function Begins(i: nat, fs: seq<Slot>, n: nat): nat
    requires n <= |fs|
  {
    if n < |fs| then fs[n].start else if n == 0 then i else fs[n - 1].end + 1
  }

  lemma {:induction false} OneBefore(s: string, names: seq<string>, i: nat, fs: seq<Slot>, n: nat)
    requires FieldsBefore(s, names, i, fs) && n < |fs|
    ensures ScanFrom(s, names, Begins(i, fs, n)) == WithField(FieldOf(fs[n]), ScanFrom(s, names, Begins(i, fs, n + 1)))
  {
    BeginsNext(s, names, i, fs, n);
    FieldPassed(s, names, fs[n]);
  }

  lemma {:induction false} BeginsNext(s: string, names: seq<string>, i: nat, fs: seq<Slot>, n: nat)
    requires FieldsBefore(s, names, i, fs) && n < |fs|
    ensures SlotAt(s, fs[n]) && fs[n].nameWord.text in names && s[fs[n].end] == ','
    ensures Begins(i, fs, n) == fs[n].start && Begins(i, fs, n + 1) == fs[n].end + 1
  {
    assert FieldBefore(s, names, i, fs, n);
  }

  lemma {:induction false} FieldPassed(s: string, names: seq<string>, f: Slot)
    requires SlotAt(s, f) && f.nameWord.text in names && s[f.end] == ','
    ensures ScanFrom(s, names, f.start) == WithField(FieldOf(f), ScanFrom(s, names, f.end + 1))
  {
    SlotSeen(s, names, f);
    MoreFound(s, names, f);
  }

  /** Results of which each puts its field before the next. */
  lemma {:induction false} AllBefore(fs: seq<Slot>, found: seq<(seq<Field>, Verdict)>, n: nat)
    requires |found| == |fs| + 1 && n <= |fs|
    requires forall k :: 0 <= k < |fs| ==> found[k] == WithField(FieldOf(fs[k]), found[k + 1])
    ensures found[n] == (FieldsOf(fs)[n..] + found[|fs|].0, found[|fs|].1)
    decreases |fs| - n
  {
    if n < |fs| {
      AllBefore(fs, found, n + 1);
      assert FieldsOf(fs)[n..] == [FieldOf(fs[n])] + FieldsOf(fs)[n + 1..];
      assert [FieldOf(fs[n])] + (FieldsOf(fs)[n + 1..] + found[|fs|].0) == FieldsOf(fs)[n..] + found[|fs|].0;
    } else {
      assert FieldsOf(fs)[n..] + found[n].0 == found[n].0;
    }
  }

  /** Behind known fields, all of them are found and the verdict is that of the rest. */
  lemma {:induction false} ScanGoesOn(s: string, names: seq<string>, i: nat, fs: seq<Slot>)
    requires FieldsBefore(s, names, i, fs)
    ensures var rest := ScanFrom(s, names, Begins(i, fs, |fs|));
            ScanFrom(s, names, Begins(i, fs, 0)) == (FieldsOf(fs) + rest.0, rest.1)
  {
    var found := seq(|fs| + 1, n requires 0 <= n <= |fs| => ScanFrom(s, names, Begins(i, fs, n)));
    forall k | 0 <= k < |fs| ensures found[k] == WithField(FieldOf(fs[k]), found[k + 1]) {
      OneBefore(s, names, i, fs, k);
    }
    AllBefore(fs, found, 0);
    assert FieldsOf(fs)[0..] == FieldsOf(fs);
  }

  /** An open brace at `i`, known fields with commas, white space, and from `k` on neither a field nor the
      close brace of an empty struct. */
  ghost predicate StopsAt(s: string, names: seq<string>, i: nat, fs: seq<Slot>, k: nat) {
    var next := Begins(i + 1, fs, |fs|);
    && i < |s| && AllSpace(s[..i]) && s[i] == '{' && FieldsBefore(s, names, i + 1, fs)
    && next <= k <= |s| && AllSpace(s[next..k])
    && (k < |s| ==> !IsSpace(s[k]) && NextField(s, names, k).NoField?)
    && (if fs == [] then k < |s| ==> s[k] != '}' else fs[0].name < |s| && s[fs[0].name] != '}')
  }

  lemma {:induction false} ScanOfBad(s: string, names: seq<string>, k: nat)
    requires k < |s| ==> NextField(s, names, k).NoField?
    ensures ScanStruct(s, names, k) == ([], if k < |s| then NextField(s, names, k).verdict else Malformed)
  {
  }

  lemma {:induction false} RestStops(s: string, names: seq<string>, i: nat, fs: seq<Slot>, k: nat)
    requires StopsAt(s, names, i, fs, k)
    ensures SkipSpace(s, Begins(i + 1, fs, |fs|)) == k
  {
    GapSkipped(s, Begins(i + 1, fs, |fs|), s[Begins(i + 1, fs, |fs|)..k]);
  }

  lemma {:induction false} SplitStarts(s: string, names: seq<string>, i: nat, k: nat)
    requires i < |s| && AllSpace(s[..i]) && s[i] == '{' && SkipSpace(s, i + 1) == k <= |s| && (k < |s| ==> s[k] != '}')
    ensures StructSplit(s, names) == ScanFrom(s, names, i + 1)
  {
    GapSkipped(s, 0, s[..i]);
  }

  lemma {:induction false} FirstStarts(s: string, names: seq<string>, i: nat, fs: seq<Slot>, k: nat)
    requires StopsAt(s, names, i, fs, k)
    ensures var first := SkipSpace(s, i + 1); first <= |s| && (first < |s| ==> s[first] != '}')
  {
    if fs == [] {
      RestStops(s, names, i, fs, k);
    } else {
      assert FieldBefore(s, names, i + 1, fs, 0);
      NameBegins(s, fs[0]);
    }
  }

  /** The fields before the first that is not accepted are found, and its error is the verdict. */
  lemma {:induction false} StructStops(s: string, names: seq<string>, i: nat, fs: seq<Slot>, k: nat)
    requires StopsAt(s, names, i, fs, k)
    ensures StructSplit(s, names) ==
            (FieldsOf(fs), if k < |s| then NextField(s, names, k).verdict else Malformed)
  {
    FirstStarts(s, names, i, fs, k);
    SplitStarts(s, names, i, SkipSpace(s, i + 1));
    ScanGoesOn(s, names, i + 1, fs);
    RestStops(s, names, i, fs, k);
    ScanOfBad(s, names, k);
    assert FieldsOf(fs) + [] == FieldsOf(fs);
  }
}
