/** The grammar of struct texts: what the names and values of the fields are, without reference to the
    scanner. */
module StructGrammar {
  import opened NestedText
  import opened NestedScanner
  import opened TextChunks
  import MapGrammar

  // ----- words -----

  /** A text that is meant as it is, or one in quotes. */
  datatype Word = AsIs(text: string) | Unquoted(q: char, text: string)

  function Written(w: Word): string {
    match w
    case AsIs(text) => text
    case Unquoted(q, text) => [q] + text + [q]
  }

  /** A text with the same quote at both ends, a lone quote too, is not meant as it is. */
  ghost predicate WordOk(w: Word) {
    match w
    case AsIs(text) => text == "" || !IsQuote(text[0]) || text[|text| - 1] != text[0]
    case Unquoted(q, _) => IsQuote(q)
  }

  /** Quotes are taken off a text in quotes, any other text is kept, and only a lone quote has no text. */
  lemma {:induction false} TrimQuotesIff(text: string)
    ensures TrimQuotes(text) == None <==> text == "'" || text == "\""
    ensures forall w :: WordOk(w) && Written(w) == text ==> TrimQuotes(text) == Some(w.text)
    ensures TrimQuotes(text).Some? ==> exists w :: WordOk(w) && Written(w) == text
  {
    forall w | WordOk(w) && Written(w) == text ensures TrimQuotes(text) == Some(w.text) {
      WordTrimmed(w);
    }
    if TrimQuotes(text).Some? {
      var w := TrimmedWord(text);
    }
    assert |text| == 1 ==> text == [text[0]];
  }

  lemma {:induction false} WordTrimmed(w: Word)
    requires WordOk(w)
    ensures TrimQuotes(Written(w)) == Some(w.text)
  {
    if w.Unquoted? {
      var t := Written(w);
      assert t[1..|t| - 1] == w.text;
    }
  }

  lemma {:induction false} TrimmedWord(text: string) returns (w: Word)
    requires TrimQuotes(text).Some?
    ensures WordOk(w) && Written(w) == text && w.text == TrimQuotes(text).value
  {
    if text == "" || !IsQuote(text[0]) || text[|text| - 1] != text[0] {
      w := AsIs(text);
    } else {
      w := Unquoted(text[0], text[1..|text| - 1]);
    }
  }

  /** A word and white space behind it. */
  ghost predicate Padded(text: string, word: string) {
    && |word| <= |text| && text[..|word|] == word && AllSpace(text[|word|..])
    && (word == "" || !IsSpace(word[|word| - 1]))
  }

  lemma {:induction false} TrimRightFinds(s: string, i: nat, j: nat, word: string)
    requires i <= j <= |s| && Padded(s[i..j], word)
    ensures TrimRight(s, i, j) == i + |word| && s[i..i + |word|] == word
    decreases j
  {
    var text := s[i..j];
    assert s[i..i + |word|] == text[..|word|];
    if |word| < |text| {
      assert IsSpace(text[|word|..][|text| - |word| - 1]);
      assert s[i..j - 1] == text[..|text| - 1];
      assert text[..|text| - 1][|word|..] == text[|word|..][..|text| - |word| - 1];
      assert text[..|text| - 1][..|word|] == text[..|word|];
      TrimRightFinds(s, i, j - 1, word);
    } else if word != "" {
      assert s[j - 1] == word[|word| - 1];
    }
  }

  lemma {:induction false} TrimRightIsPadded(s: string, i: nat, j: nat)
    requires i <= j <= |s|
    ensures Padded(s[i..j], s[i..TrimRight(s, i, j)])
    decreases j
  {
    var r := TrimRight(s, i, j);
    var text, word := s[i..j], s[i..r];
    assert text[..|word|] == word;
    if i < j && IsSpace(s[j - 1]) {
      TrimRightIsPadded(s, i, j - 1);
      assert text == s[i..j - 1] + [s[j - 1]];
      assert text[|word|..] == s[i..j - 1][|word|..] + [s[j - 1]];
    } else {
      assert text[|word|..] == "";
    }
  }

  lemma {:induction false} ColonIff(s: string, i: nat, j: nat)
    requires i <= j < |s|
    ensures FindColon(s, i) == Some(j) <==> s[j] == ':' && ':' !in s[i..j]
    decreases j - i
  {
    if i < j {
      ColonIff(s, i + 1, j);
      assert s[i..j] == [s[i]] + s[i + 1..j];
    }
  }

  // ----- fields -----

  /** White space up to `name`, a name up to the colon, white space up to `value` and a value up to `end`. */
  datatype Slot = Slot(start: nat, name: nat, colon: nat, value: nat, end: nat,
                       nameWord: Word, valueWord: Word, chunks: seq<Chunk>)

  ghost predicate SlotAt(s: string, f: Slot) {
    && f.start <= f.name <= f.colon < f.value <= f.end < |s|
    && AllSpace(s[f.start..f.name]) && !IsSpace(s[f.name])
    && ':' !in s[f.name..f.colon] && s[f.colon] == ':'
    && WordOk(f.nameWord) && Padded(s[f.name..f.colon], Written(f.nameWord))
    && AllSpace(s[f.colon + 1..f.value]) && !IsSpace(s[f.value])
    && s[f.value..f.end] == Text(f.chunks) && ChunksOk(f.chunks, InValue, true)
    && WordOk(f.valueWord) && Padded(s[f.value..f.end], Written(f.valueWord))
  }

  /** Fields from `i` on, with commas between them and a close brace behind the last. */
  ghost predicate SlotsAt(s: string, i: nat, fs: seq<Slot>) {
    fs != [] && fs[0].start == i && AllSlots(s, fs) && Separated(s, fs)
  }

  ghost predicate AllSlots(s: string, fs: seq<Slot>) {
    forall n :: 0 <= n < |fs| ==> SlotAt(s, fs[n])
  }

  ghost predicate Separated(s: string, fs: seq<Slot>) {
    && (forall n :: 0 <= n < |fs| - 1 ==> SeparatedAt(s, fs, n))
    && (fs != [] ==> fs[|fs| - 1].end < |s| && s[fs[|fs| - 1].end] == '}')
  }

  ghost predicate SeparatedAt(s: string, fs: seq<Slot>, n: nat) {
    n + 1 < |fs| && fs[n].end < |s| && s[fs[n].end] == ',' && fs[n + 1].start == fs[n].end + 1
  }

  /** A struct: white space, an open brace at `i`, fields with known names and the close brace. */
  ghost predicate StructText(s: string, names: seq<string>, i: nat, fs: seq<Slot>) {
    && i < |s| && AllSpace(s[..i]) && s[i] == '{' && SlotsAt(s, i + 1, fs) && s[fs[0].name] != '}'
    && forall n :: 0 <= n < |fs| ==> fs[n].nameWord.text in names
  }

  function FieldOf(f: Slot): Field {
    Field(f.nameWord.text, f.valueWord.text)
  }

  function FieldsOf(fs: seq<Slot>): (r: seq<Field>)
    ensures |r| == |fs|
  {
    seq(|fs|, n requires 0 <= n < |fs| => FieldOf(fs[n]))
  }

  // ----- what the scanner sees of a field -----

  ghost predicate SeenName(s: string, f: Slot) {
    && SkipSpace(s, f.start) == f.name && FindColon(s, f.name) == Some(f.colon)
    && f.name <= f.colon < |s| && TrimQuotes(s[f.name..TrimRight(s, f.name, f.colon)]) == Some(f.nameWord.text)
  }

  ghost predicate SeenValue(s: string, f: Slot) {
    && SkipSpace(s, f.colon + 1) == f.value && FindStop(s, f.value, false) == Some(f.end)
    && f.value <= f.end < |s| && TrimQuotes(s[f.value..TrimRight(s, f.value, f.end)]) == Some(f.valueWord.text)
  }

  lemma {:induction false} TextSeen(s: string, i: nat, j: nat, w: Word)
    requires i <= j <= |s| && WordOk(w) && Padded(s[i..j], Written(w))
    ensures TrimQuotes(s[i..TrimRight(s, i, j)]) == Some(w.text)
  {
    TrimRightFinds(s, i, j, Written(w));
    WordTrimmed(w);
  }

  lemma {:induction false} NameBegins(s: string, f: Slot)
    requires SlotAt(s, f)
    ensures SkipSpace(s, f.start) == f.name
  {
    GapTo(s, f.start, f.name);
  }

  lemma {:induction false} ValueBegins(s: string, f: Slot)
    requires SlotAt(s, f)
    ensures SkipSpace(s, f.colon + 1) == f.value
  {
    GapTo(s, f.colon + 1, f.value);
  }

  lemma {:induction false} NameSeen(s: string, f: Slot)
    requires SlotAt(s, f)
    ensures SeenName(s, f)
  {
    NameBegins(s, f);
    ColonIff(s, f.name, f.colon);
    TextSeen(s, f.name, f.colon, f.nameWord);
  }

  lemma {:induction false} ValueSeen(s: string, f: Slot)
    requires SlotAt(s, f) && Ends(InValue, s[f.end])
    ensures SeenValue(s, f)
  {
    ValueBegins(s, f);
    StopBehind(s, f.value, f.end, f.chunks, false);
    TextSeen(s, f.value, f.end, f.valueWord);
  }

  lemma {:induction false} FieldSeen(s: string, names: seq<string>, f: Slot)
    requires SeenName(s, f) && SeenValue(s, f) && f.nameWord.text in names
    ensures f.name < |s| && NextField(s, names, f.name) == Found(FieldOf(f), f.end)
  {
  }

  // ----- the fields -----

  /** Scanning from behind the open brace or a comma. */
  function ScanFrom(s: string, names: seq<string>, i: nat): (seq<Field>, Verdict) {
    ScanStruct(s, names, SkipSpace(s, i))
  }

  ghost predicate Seen(s: string, names: seq<string>, f: Slot) {
    && SkipSpace(s, f.start) == f.name < |s| && f.end < |s|
    && NextField(s, names, f.name) == Found(FieldOf(f), f.end)
  }

  /** Nothing but white space may follow. */
  ghost function After(s: string, i: nat): Verdict {
    if MapGrammar.Blank(s, i) then Good else Malformed
  }

  function WithField(field: Field, rest: (seq<Field>, Verdict)): (seq<Field>, Verdict) {
    ([field] + rest.0, rest.1)
  }

  lemma {:induction false} LastFound(s: string, names: seq<string>, f: Slot)
    requires Seen(s, names, f) && s[f.end] == '}'
    ensures ScanFrom(s, names, f.start) == ([FieldOf(f)], After(s, f.end + 1))
  {
    RestIsSpace(s, f.end + 1);
  }

  lemma {:induction false} MoreFound(s: string, names: seq<string>, f: Slot)
    requires Seen(s, names, f) && s[f.end] == ','
    ensures ScanFrom(s, names, f.start) == WithField(FieldOf(f), ScanFrom(s, names, f.end + 1))
  {
  }

  lemma {:induction false} SlotInside(s: string, i: nat, fs: seq<Slot>, n: nat)
    requires SlotsAt(s, i, fs) && n < |fs|
    ensures SlotAt(s, fs[n]) && fs[n].end < |s|
    ensures if n == |fs| - 1 then s[fs[n].end] == '}' else SeparatedAt(s, fs, n)
  {
  }

  lemma {:induction false} SlotSeen(s: string, names: seq<string>, f: Slot)
    requires SlotAt(s, f) && Ends(InValue, s[f.end]) && f.nameWord.text in names
    ensures Seen(s, names, f)
  {
    NameSeen(s, f);
    ValueSeen(s, f);
    FieldSeen(s, names, f);
  }

  ghost predicate AllSeen(s: string, names: seq<string>, fs: seq<Slot>) {
    fs != [] && EachSeen(s, names, fs) && Separated(s, fs)
  }

  ghost predicate EachSeen(s: string, names: seq<string>, fs: seq<Slot>) {
    forall n :: 0 <= n < |fs| ==> Seen(s, names, fs[n])
  }

  lemma {:induction false} SlotsSeen(s: string, names: seq<string>, i: nat, fs: seq<Slot>)
    requires SlotsAt(s, i, fs) && forall n :: 0 <= n < |fs| ==> fs[n].nameWord.text in names
    ensures AllSeen(s, names, fs)
  {
    forall n | 0 <= n < |fs| ensures Seen(s, names, fs[n]) {
      SlotInside(s, i, fs, n);
      SlotSeen(s, names, fs[n]);
    }
  }

  /** Results of which each puts its field before the next. */
  ghost predicate Linked(fs: seq<Slot>, found: seq<(seq<Field>, Verdict)>, verdict: Verdict) {
    && |found| == |fs| > 0 && found[|fs| - 1] == ([FieldOf(fs[|fs| - 1])], verdict)
    && forall k :: 0 <= k < |fs| - 1 ==> found[k] == WithField(FieldOf(fs[k]), found[k + 1])
  }

  lemma {:induction false} Collected(fs: seq<Slot>, found: seq<(seq<Field>, Verdict)>, verdict: Verdict, n: nat)
    requires Linked(fs, found, verdict) && n < |fs|
    ensures found[n] == (FieldsOf(fs)[n..], verdict)
    decreases |fs| - n
  {
    assert FieldsOf(fs)[n..] == [FieldOf(fs[n])] + FieldsOf(fs)[n + 1..];
    if n < |fs| - 1 {
      Collected(fs, found, verdict, n + 1);
    } else {
      assert FieldsOf(fs)[n..] == [FieldOf(fs[n])];
    }
  }

  /** The results of scanning from each field on. */
  function Scans(s: string, names: seq<string>, fs: seq<Slot>): (found: seq<(seq<Field>, Verdict)>)
    ensures |found| == |fs|
  {
    seq(|fs|, n requires 0 <= n < |fs| => ScanFrom(s, names, fs[n].start))
  }

  lemma {:induction false} ScansStep(s: string, names: seq<string>, fs: seq<Slot>, k: nat)
    requires k < |fs| - 1 && Seen(s, names, fs[k]) && s[fs[k].end] == ',' && fs[k + 1].start == fs[k].end + 1
    ensures Scans(s, names, fs)[k] == WithField(FieldOf(fs[k]), Scans(s, names, fs)[k + 1])
  {
    MoreFound(s, names, fs[k]);
  }

  lemma {:induction false} ScansLast(s: string, names: seq<string>, fs: seq<Slot>)
    requires fs != [] && Seen(s, names, fs[|fs| - 1]) && s[fs[|fs| - 1].end] == '}'
    ensures Scans(s, names, fs)[|fs| - 1] == ([FieldOf(fs[|fs| - 1])], After(s, fs[|fs| - 1].end + 1))
  {
    LastFound(s, names, fs[|fs| - 1]);
  }

  lemma {:induction false} ScansLinked(s: string, names: seq<string>, fs: seq<Slot>)
    requires AllSeen(s, names, fs)
    ensures Linked(fs, Scans(s, names, fs), After(s, fs[|fs| - 1].end + 1))
  {
    forall k | 0 <= k < |fs| - 1
      ensures Scans(s, names, fs)[k] == WithField(FieldOf(fs[k]), Scans(s, names, fs)[k + 1])
    {
      assert SeparatedAt(s, fs, k);
      ScansStep(s, names, fs, k);
    }
    ScansLast(s, names, fs);
  }

  /** What is seen is found. */
  lemma {:induction false} ScanSeen(s: string, names: seq<string>, fs: seq<Slot>)
    requires AllSeen(s, names, fs)
    ensures Scans(s, names, fs)[0] == (FieldsOf(fs), After(s, fs[|fs| - 1].end + 1))
  {
    ScansLinked(s, names, fs);
    Collected(fs, Scans(s, names, fs), After(s, fs[|fs| - 1].end + 1), 0);
    assert FieldsOf(fs)[0..] == FieldsOf(fs);
  }

  lemma {:induction false} StructOpens(s: string, names: seq<string>, i: nat, fs: seq<Slot>)
    requires StructText(s, names, i, fs)
    ensures StructSplit(s, names) == Scans(s, names, fs)[0]
  {
    SlotInside(s, i + 1, fs, 0);
    MapGrammar.BraceBegins(s, i, fs[0].name);
    NameBegins(s, fs[0]);
  }

  /** Of a struct text exactly the fields are found, and the verdict is whether only white space follows. */
  lemma {:induction false} StructFinds(s: string, names: seq<string>, i: nat, fs: seq<Slot>)
    requires StructText(s, names, i, fs)
    ensures StructSplit(s, names) == (FieldsOf(fs), After(s, fs[|fs| - 1].end + 1))
  {
    StructOpens(s, names, i, fs);
    SlotsSeen(s, names, i + 1, fs);
    ScanSeen(s, names, fs);
  }

  // ----- and back -----

  lemma {:induction false} NameIs(s: string, i: nat, j: nat) returns (w: Word)
    requires i <= j <= |s| && TrimQuotes(s[i..TrimRight(s, i, j)]).Some?
    ensures WordOk(w) && Padded(s[i..j], Written(w)) && TrimQuotes(s[i..TrimRight(s, i, j)]) == Some(w.text)
  {
    w := TrimmedWord(s[i..TrimRight(s, i, j)]);
    TrimRightIsPadded(s, i, j);
  }

  /** The positions of a field that is found. */
  lemma {:induction false} FieldParts(s: string, names: seq<string>, i: nat) returns (j: nat, v: nat, e: nat)
    requires i < |s| && NextField(s, names, i).Found?
    ensures i <= j < v <= e < |s| && FindColon(s, i) == Some(j)
    ensures SkipSpace(s, j + 1) == v && FindStop(s, v, false) == Some(e) && e == NextField(s, names, i).stop
    ensures TrimQuotes(s[i..TrimRight(s, i, j)]) == Some(NextField(s, names, i).field.name)
    ensures TrimQuotes(s[v..TrimRight(s, v, e)]) == Some(NextField(s, names, i).field.value)
  {
    j := FindColon(s, i).value;
    v := SkipSpace(s, j + 1);
    e := FindStop(s, v, false).value;
  }

  lemma {:induction false} FieldIsSlot(s: string, names: seq<string>, i: nat) returns (f: Slot)
    requires i <= |s| && SkipSpace(s, i) < |s| && NextField(s, names, SkipSpace(s, i)).Found?
    ensures f.start == i && SlotAt(s, f) && Seen(s, names, f)
  {
    var k := SkipSpace(s, i);
    var j, v, e := FieldParts(s, names, k);
    SkipsTo(s, i);
    SkipsTo(s, j + 1);
    ColonIff(s, k, j);
    var nameWord := NameIs(s, k, j);
    var valueWord := NameIs(s, v, e);
    var chunks := MapGrammar.ChunksBefore(s, v, false);
    f := Slot(i, k, j, v, e, nameWord, valueWord, chunks);
  }

  lemma {:induction false} SlotsOne(s: string, f: Slot)
    requires SlotAt(s, f) && s[f.end] == '}'
    ensures SlotsAt(s, f.start, [f])
  {
  }

  lemma {:induction false} SlotsCons(s: string, f: Slot, rest: seq<Slot>)
    requires SlotAt(s, f) && s[f.end] == ',' && SlotsAt(s, f.end + 1, rest)
    ensures SlotsAt(s, f.start, [f] + rest)
  {
    SeparatedCons(s, f, rest);
    AllSlotsCons(s, f, rest);
  }

  lemma {:induction false} AllSlotsCons(s: string, f: Slot, rest: seq<Slot>)
    requires SlotAt(s, f) && AllSlots(s, rest)
    ensures AllSlots(s, [f] + rest)
  {
  }

  lemma {:induction false} SeparatedCons(s: string, f: Slot, rest: seq<Slot>)
    requires rest != [] && Separated(s, rest) && f.end < |s| && s[f.end] == ',' && rest[0].start == f.end + 1
    ensures Separated(s, [f] + rest)
  {
    var fs := [f] + rest;
    forall n | 0 <= n < |fs| - 1 ensures SeparatedAt(s, fs, n) {
      assert fs[n + 1] == rest[n] && (n > 0 ==> fs[n] == rest[n - 1] && SeparatedAt(s, rest, n - 1));
    }
  }

  /** Fields are seen from `start` on up to the end of the text. */
  ghost predicate SeenAs(s: string, names: seq<string>, fs: seq<Slot>, start: nat, fields: seq<Field>) {
    AllSeen(s, names, fs) && fs[0].start == start && fs[|fs| - 1].end + 1 == |s| && FieldsOf(fs) == fields
  }

  lemma {:induction false} SeenOne(s: string, names: seq<string>, f: Slot)
    requires Seen(s, names, f) && s[f.end] == '}' && f.end + 1 == |s|
    ensures SeenAs(s, names, [f], f.start, [FieldOf(f)])
  {
  }

  lemma {:induction false} SeenCons(s: string, names: seq<string>, f: Slot, rest: seq<Slot>, fields: seq<Field>)
    requires Seen(s, names, f) && s[f.end] == ',' && SeenAs(s, names, rest, f.end + 1, fields)
    ensures SeenAs(s, names, [f] + rest, f.start, [FieldOf(f)] + fields)
  {
    SeparatedCons(s, f, rest);
    EachSeenCons(s, names, f, rest);
    FieldsCons(f, rest);
  }

  lemma {:induction false} EachSeenCons(s: string, names: seq<string>, f: Slot, rest: seq<Slot>)
    requires Seen(s, names, f) && EachSeen(s, names, rest)
    ensures EachSeen(s, names, [f] + rest)
  {
    forall n | 0 <= n < |rest| + 1 ensures Seen(s, names, ([f] + rest)[n]) {
      assert n > 0 ==> ([f] + rest)[n] == rest[n - 1];
    }
  }

  lemma {:induction false} FieldsCons(f: Slot, rest: seq<Slot>)
    ensures FieldsOf([f] + rest) == [FieldOf(f)] + FieldsOf(rest)
  {
  }

  /** All names are known, and only white space follows. */
  ghost predicate Complete(s: string, names: seq<string>, fs: seq<Slot>) {
    && fs != [] && MapGrammar.Blank(s, fs[|fs| - 1].end + 1)
    && forall n :: 0 <= n < |fs| ==> fs[n].nameWord.text in names
  }

  lemma {:induction false} CompleteOne(s: string, names: seq<string>, f: Slot)
    requires Seen(s, names, f) && s[f.end] == '}' && ScanFrom(s, names, f.start).1 == Good
    ensures Complete(s, names, [f])
  {
    LastFound(s, names, f);
  }

  lemma {:induction false} CompleteCons(s: string, names: seq<string>, f: Slot, rest: seq<Slot>)
    requires f.nameWord.text in names && Complete(s, names, rest)
    ensures Complete(s, names, [f] + rest)
  {
  }

  lemma {:induction false} GoodField(s: string, names: seq<string>, i: nat)
    requires ScanStruct(s, names, i).1 == Good
    ensures i < |s| && NextField(s, names, i).Found? && NextField(s, names, i).field.name in names
    ensures Stops(false, s[NextField(s, names, i).stop])
  {
  }

  /** What the scan accepts is made of fields with known names. */
  lemma {:induction false} ScanIsSlots(s: string, names: seq<string>, i: nat) returns (fs: seq<Slot>)
    requires i <= |s| && ScanFrom(s, names, i).1 == Good
    ensures SlotsAt(s, i, fs) && Complete(s, names, fs) && fs[0].name == SkipSpace(s, i)
    decreases |s| - i
  {
    GoodField(s, names, SkipSpace(s, i));
    var f := FieldIsSlot(s, names, i);
    if s[f.end] == '}' {
      CompleteOne(s, names, f);
      SlotsOne(s, f);
      return [f];
    }
    MoreFound(s, names, f);
    var rest := ScanIsSlots(s, names, f.end + 1);
    SlotsCons(s, f, rest);
    CompleteCons(s, names, f, rest);
    fs := [f] + rest;
  }

  /** A struct text with nothing but white space behind it. */
  ghost predicate GoodStruct(s: string, names: seq<string>, i: nat, fs: seq<Slot>) {
    StructText(s, names, i, fs) && MapGrammar.Blank(s, fs[|fs| - 1].end + 1)
  }

  lemma {:induction false} StructIsGood(s: string, names: seq<string>) returns (i: nat, fs: seq<Slot>)
    requires StructSplit(s, names).1 == Good && BraceStart(s).Some?
    ensures GoodStruct(s, names, i, fs)
  {
    i := MapGrammar.BraceIsOpen(s);
    fs := ScanIsSlots(s, names, i + 1);
  }

  /** The verdict is good exactly for struct texts and empty braces with nothing but white space behind
      them. */
  lemma {:induction false} StructGoodIff(s: string, names: seq<string>)
    ensures StructSplit(s, names).1 == Good <==>
            || (exists i: nat, fs :: GoodStruct(s, names, i, fs))
            || (exists i: nat, j: nat :: MapGrammar.GoodEmpty(s, i, j))
  {
    MapGrammar.EmptyBracesIff(s);
    if StructSplit(s, names).1 == Good && BraceStart(s).Some? {
      var i, fs := StructIsGood(s, names);
    }
    forall i: nat, fs | GoodStruct(s, names, i, fs) ensures StructSplit(s, names).1 == Good {
      StructFinds(s, names, i, fs);
    }
    forall i: nat, j: nat | MapGrammar.GoodEmpty(s, i, j) ensures StructSplit(s, names).1 == Good {
      MapGrammar.BraceBegins(s, i, j);
    }
  }
}
