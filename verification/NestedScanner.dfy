/** Splitting list, map and struct literals into the texts of their parts. */
module NestedScanner {
  import opened NestedText

  /** The text from `start` up to, not including, `end`. */
  datatype Range = Range(start: nat, end: nat)
  datatype Split<P> = Split(parts: seq<P>, ok: bool)

  function Prepend<P>(first: seq<P>, rest: Split<P>): Split<P> {
    Split(first + rest.parts, rest.ok)
  }

  // ----- lists -----

  predicate IsQuote(c: char) {
    c == '\'' || c == '"'
  }

  /** Scanning a list from position `i`, in a part that began at `start`. A quote only counts at the
      beginning of a part. */
  function ScanList(s: string, i: nat, start: nat, atStart: bool, seen: bool): (r: Split<Range>)
    requires start <= i
    decreases |s| - i
  {
    if i >= |s| then Split([], false)
    else if s[i] == '[' then
      match Close(s, i + 1, ']')
      case None => Split([], false)
      case Some(j) => ScanList(s, j + 1, start, false, seen)
    else if IsQuote(s[i]) && atStart then
      var q := CloseQuote(s, i + 1, s[i]);
      ScanList(s, (if q < |s| then q else i) + 1, start, false, seen)
    else if s[i] == '{' then
      match Close(s, i + 1, '}')
      case None => Split([], false)
      case Some(j) => ScanList(s, j + 1, start, false, seen)
    else if s[i] == ',' then
      var k := SkipSpace(s, i + 1);
      Prepend([Range(start, i)], ScanList(s, k, k, true, true))
    else if s[i] == ']' then
      Split(if start < i || seen then [Range(start, i)] else [], SkipSpace(s, i + 1) == |s|)
    else ScanList(s, i + 1, start, false, seen)
  }

  function ListSplit(s: string): (r: Split<Range>)
    ensures Ordered(r.parts, 0, |s|)
  {
    var i := SkipSpace(s, 0);
    if i == |s| || s[i] != '[' then Split([], false)
    else
      var k := SkipSpace(s, i + 1);
      ListPartsOrdered(s, k, k, true, false);
      ScanList(s, k, k, true, false)
  }

  method SplitCStringList(s: string) returns (ok: bool, parts: seq<Range>)
    ensures Split(parts, ok) == ListSplit(s)
  {
    parts := [];
    var lvl, seenValue := 1, false;
    var at := SkipSpace(s, 0);
    if at == |s| || s[at] != '[' { return false, []; }
    at := SkipSpace(s, at + 1);
    var justFinishedEntry := true;
    var start: nat := at;
    ghost var whole := ListSplit(s);
    while at < |s|
      invariant start <= at && lvl == 1
      invariant Prepend(parts, ScanList(s, at, start, justFinishedEntry, seenValue)) == whole
      decreases |s| - at
    {
      var ch := s[at];
      if ch == '[' {
        ok, at, lvl := SkipToClose(s, at, lvl + 1, ']');
        if !ok { return false, parts; }
      } else if IsQuote(ch) && justFinishedEntry {
        var closed, q := SkipToCloseQuotes(s, at);
        if closed { at := q; }
      } else if ch == '{' {
        var closed, to, level := SkipToClose(s, at, 0, '}');
        at := to;
      } else if ch == ',' || ch == ']' {
        if ch != ']' || start < at || seenValue {
          parts := parts + [Range(start, at)];
          seenValue := true;
        }
        if ch == ']' {
          lvl := lvl - 1;
          break;
        }
        at := SkipSpace(s, at + 1);
        start := at;
        justFinishedEntry := true;
        continue;
      }
      justFinishedEntry := false;
      at := at + 1;
    }
    at := SkipSpace(s, at + 1);
    ok := at == |s| && lvl == 0;
  }

  /** Parts lie in the text from `lo` on, one behind the other. */
  ghost predicate Ordered(parts: seq<Range>, lo: nat, hi: nat) {
    && (forall k :: 0 <= k < |parts| ==> lo <= parts[k].start <= parts[k].end < hi)
    && (forall k :: 0 <= k < |parts| - 1 ==> parts[k].end < parts[k + 1].start)
  }

  /** On every input, malformed ones too, the parts are disjoint and in order. */
  lemma {:induction false} ListPartsOrdered(s: string, i: nat, start: nat, atStart: bool, seen: bool)
    requires start <= i
    ensures Ordered(ScanList(s, i, start, atStart, seen).parts, start, |s|)
    decreases |s| - i
  {
    if i >= |s| {
    } else if IsOpen(s[i]) {
      var j := Close(s, i + 1, Closer(s[i]));
      if j.Some? { ListPartsOrdered(s, j.value + 1, start, false, seen); }
    } else if IsQuote(s[i]) && atStart {
      var q := CloseQuote(s, i + 1, s[i]);
      ListPartsOrdered(s, (if q < |s| then q else i) + 1, start, false, seen);
    } else if s[i] == ',' {
      var k := SkipSpace(s, i + 1);
      ListPartsOrdered(s, k, k, true, true);
      var rest := ScanList(s, k, k, true, true).parts;
      var parts := [Range(start, i)] + rest;
      assert forall n :: 0 < n < |parts| ==> parts[n] == rest[n - 1];
    } else if s[i] != ']' {
      ListPartsOrdered(s, i + 1, start, false, seen);
    }
  }

  // ----- casting a list: count, allocate, fill -----

  function SkipSpaceTo(s: string, i: nat, end: nat): (j: nat)
    requires i <= end <= |s|
    ensures i <= j <= end
    decreases end - i
  {
    if i < end && IsSpace(s[i]) then SkipSpaceTo(s, i + 1, end) else i
  }

  /** The text of a part without white space around it. */
  function Trimmed(s: string, r: Range): string
    requires r.start <= r.end <= |s|
  {
    var a := SkipSpaceTo(s, r.start, r.end);
    s[a..TrimRight(s, a, r.end)]
  }

  datatype Outcome = Done | ConversionError

  /** A list's data vector: one slot per element, null until it is written. */
  class DataVector {
    var slots: seq<Option<string>>

    method AddList(count: nat) returns (offset: nat)
      modifies this
      ensures offset == old(|slots|) && slots == old(slots) + seq(count, _ => None)
    {
      offset := |slots|;
      slots := slots + seq(count, _ => None);
    }

    /** One pass counts the parts, the next writes them into the slots allocated for that count. An
        element that does not convert ends the cast. Slots of other lists are not touched. */
    method CastList(s: string, converts: string -> bool) returns (outcome: Outcome, offset: nat)
      modifies this
      ensures offset == old(|slots|) && |slots| == offset + |ListSplit(s).parts|
      ensures slots[..offset] == old(slots)
      ensures outcome.Done? ==>
                ListSplit(s).ok && forall k :: 0 <= k < |ListSplit(s).parts| ==>
                    slots[offset + k] == Some(Trimmed(s, ListSplit(s).parts[k]))
      ensures outcome.ConversionError? <==>
                !ListSplit(s).ok || exists k ::
                    0 <= k < |ListSplit(s).parts| && !converts(Trimmed(s, ListSplit(s).parts[k]))
    {
      var counted, counts := SplitCStringList(s);
      offset := AddList(|counts|);
      var ok, parts := SplitCStringList(s);
      var k := 0;
      while k < |parts|
        invariant 0 <= k <= |parts| && |slots| == offset + |parts| && slots[..offset] == old(slots)
        invariant forall n :: 0 <= n < k ==>
                    slots[offset + n] == Some(Trimmed(s, parts[n])) && converts(Trimmed(s, parts[n]))
      {
        var text := Trimmed(s, parts[k]);
        if !converts(text) { return ConversionError, offset; }
        slots := slots[offset + k := Some(text)];
        k := k + 1;
      }
      outcome := if ok then Done else ConversionError;
    }
  }

  // ----- the end of a map key, a map value or a struct value -----

  predicate Stops(isKey: bool, c: char) {
    if isKey then c == '=' else c == ',' || c == '}'
  }

  /** The first stop that is not in quotes or brackets. */
  function FindStop(s: string, i: nat, isKey: bool): (r: Option<nat>)
    ensures r.Some? ==> i <= r.value < |s| && Stops(isKey, s[r.value])
    decreases |s| - i
  {
    if i >= |s| then None
    else if IsQuote(s[i]) then
      var q := CloseQuote(s, i + 1, s[i]);
      if q == |s| then None else FindStop(s, q + 1, isKey)
    else if IsOpen(s[i]) then
      match Close(s, i + 1, Closer(s[i]))
      case None => None
      case Some(j) => FindStop(s, j + 1, isKey)
    else if Stops(isKey, s[i]) then Some(i)
    else FindStop(s, i + 1, isKey)
  }

  method ParseKeyOrValue(s: string, at: nat, isKey: bool) returns (ok: bool, at': nat)
    ensures ok <==> FindStop(s, at, isKey).Some?
    ensures ok ==> FindStop(s, at, isKey) == Some(at')
  {
    var lvl := 0;
    at' := at;
    while at' < |s|
      invariant at <= at' && 0 <= lvl < MODULUS && FindStop(s, at', isKey) == FindStop(s, at, isKey)
      decreases |s| - at'
    {
      if IsQuote(s[at']) {
        ok, at' := SkipToCloseQuotes(s, at');
        if !ok { return false, at'; }
      } else if s[at'] == '{' {
        ok, at', lvl := SkipToClose(s, at', lvl, '}');
        if !ok { return false, at'; }
      } else if s[at'] == '[' {
        ok, at', lvl := SkipToClose(s, at', lvl, ']');
        if !ok { return false, at'; }
      } else if Stops(isKey, s[at']) {
        return true, at';
      }
      at' := at' + 1;
    }
    ok := false;
  }

  method ParseStructFieldValue(s: string, at: nat) returns (ok: bool, at': nat)
    ensures ok <==> FindStop(s, at, false).Some?
    ensures ok ==> FindStop(s, at, false) == Some(at')
  {
    var lvl := 0;
    at' := at;
    while at' < |s|
      invariant at <= at' && lvl == 0 && FindStop(s, at', false) == FindStop(s, at, false)
      decreases |s| - at'
    {
      if IsQuote(s[at']) {
        ok, at' := SkipToCloseQuotes(s, at');
        if !ok { return false, at'; }
      } else if s[at'] == '{' {
        ok, at', lvl := SkipToClose(s, at', lvl, '}');
        if !ok { return false, at'; }
      } else if s[at'] == '[' {
        ok, at', lvl := SkipToClose(s, at', lvl + 1, ']');
        if !ok { return false, at'; }
      } else if s[at'] == ',' || s[at'] == '}' {
        return lvl == 0, at';
      }
      at' := at' + 1;
    }
    ok := false;
  }

  // ----- maps -----

  /** What stands at a position in a map: a key and a value with what ends it, a key only, or neither. */
  datatype Entry = Neither | KeyOnly(key: Range) | Both(key: Range, value: Range)

  function EntryAt(s: string, i: nat): (r: Entry)
    ensures r.KeyOnly? || r.Both? ==> i == r.key.start <= r.key.end < |s| && s[r.key.end] == '='
    ensures r.Both? ==> r.key.end < r.value.start <= r.value.end < |s| && Stops(false, s[r.value.end])
  {
    match FindStop(s, i, true)
    case None => Neither
    case Some(j) =>
      var v := SkipSpace(s, j + 1);
      match FindStop(s, v, false)
      case None => KeyOnly(Range(i, j))
      case Some(e) => Both(Range(i, j), Range(v, e))
  }

  /** The keys and values that are handled, in order. A last key may be without value. */
  datatype MapSplit = MapSplit(keys: seq<Range>, values: seq<Range>, ok: bool)

  function ScanMap(s: string, i: nat): (r: MapSplit)
    ensures |r.values| <= |r.keys| <= |r.values| + 1 && (r.ok ==> |r.keys| == |r.values|)
    decreases |s| - i
  {
    if i >= |s| then MapSplit([], [], false)
    else
      match EntryAt(s, i)
      case Neither => MapSplit([], [], false)
      case KeyOnly(key) => MapSplit([key], [], false)
      case Both(key, value) =>
        var next := SkipSpace(s, value.end + 1);
        if s[value.end] == '}' then MapSplit([key], [value], next == |s|)
        else var rest := ScanMap(s, next); MapSplit([key] + rest.keys, [value] + rest.values, rest.ok)
  }

  /** Where the scan of a brace-enclosed text begins, if there is anything to scan. */
  function BraceStart(s: string): (r: Option<nat>)
    ensures r.Some? ==> r.value < |s| && s[r.value] != '}'
  {
    var i := SkipSpace(s, 0);
    if i == |s| || s[i] != '{' then None
    else var k := SkipSpace(s, i + 1); if k == |s| || s[k] == '}' then None else Some(k)
  }

  /** An opening and a closing brace with nothing in between. */
  predicate EmptyBraces(s: string) {
    var i := SkipSpace(s, 0);
    && i < |s| && s[i] == '{'
    && var k := SkipSpace(s, i + 1);
       k < |s| && s[k] == '}' && SkipSpace(s, k + 1) == |s|
  }

  function SplitMap(s: string): (r: MapSplit)
    ensures |r.values| <= |r.keys| <= |r.values| + 1 && (r.ok ==> |r.keys| == |r.values|)
  {
    match BraceStart(s)
    case None => MapSplit([], [], EmptyBraces(s))
    case Some(k) => ScanMap(s, k)
  }

  method ParseEntry(s: string, at: nat) returns (entry: Entry)
    ensures entry == EntryAt(s, at)
  {
    var ok, j := ParseKeyOrValue(s, at, true);
    if !ok { return Neither; }
    var v := SkipSpace(s, j + 1);
    var found, e := ParseKeyOrValue(s, v, false);
    entry := if found then Both(Range(at, j), Range(v, e)) else KeyOnly(Range(at, j));
  }

  /** Finds the brace a map or struct begins with, and whether anything is to be scanned behind it. */
  method OpenBraces(s: string) returns (start: Option<nat>, empty: bool)
    ensures start == BraceStart(s) && empty == EmptyBraces(s)
  {
    var at := SkipSpace(s, 0);
    if at == |s| || s[at] != '{' { return None, false; }
    at := SkipSpace(s, at + 1);
    if at == |s| { return None, false; }
    if s[at] == '}' {
      at := SkipSpace(s, at + 1);
      return None, at == |s|;
    }
    start, empty := Some(at), false;
  }

  function Before(m: MapSplit, rest: MapSplit): MapSplit {
    MapSplit(m.keys + rest.keys, m.values + rest.values, rest.ok)
  }

  lemma {:induction false} BeforeAgain(m: MapSplit, n: MapSplit, rest: MapSplit)
    ensures Before(Before(m, n), rest) == Before(m, Before(n, rest))
  {
    assert m.keys + n.keys + rest.keys == m.keys + (n.keys + rest.keys);
    assert m.values + n.values + rest.values == m.values + (n.values + rest.values);
  }

  /** One turn of the loop over the entries. */
  method MapTurn(s: string, at: nat) returns (turn: MapSplit, more: bool, at': nat)
    requires at < |s|
    ensures !more ==> turn == ScanMap(s, at)
    ensures more ==> at < at' && !turn.ok && Before(turn, ScanMap(s, at')) == ScanMap(s, at)
  {
    var entry := ParseEntry(s, at);
    match entry
    case Neither => turn, more, at' := MapSplit([], [], false), false, at;
    case KeyOnly(key) => turn, more, at' := MapSplit([key], [], false), false, at;
    case Both(key, value) =>
      at' := SkipSpace(s, value.end + 1);
      if s[value.end] == '}' {
        turn, more := MapSplit([key], [value], at' == |s|), false;
      } else {
        turn, more := MapSplit([key], [value], false), true;
      }
  }

  method SplitCStringMap(s: string) returns (r: MapSplit)
    ensures r == SplitMap(s)
  {
    var start, empty := OpenBraces(s);
    r := MapSplit([], [], empty);
    if start.None? { return; }
    var at: nat := start.value;
    r := MapSplit([], [], false);
    assert Before(r, ScanMap(s, at)) == SplitMap(s);
    while at < |s|
      invariant Before(r, ScanMap(s, at)) == SplitMap(s) && !r.ok
      decreases |s| - at
    {
      var turn, more, next := MapTurn(s, at);
      if !more { return Before(r, turn); }
      BeforeAgain(r, turn, ScanMap(s, next));
      r := Before(r, turn);
      at := next;
    }
    assert Before(r, MapSplit([], [], false)) == r;
  }

  /** The end of the last key that is handled. */
  function LastKeyEnd(s: string, i: nat): Option<nat>
    decreases |s| - i
  {
    if i >= |s| then None
    else
      match EntryAt(s, i)
      case Neither => None
      case KeyOnly(key) => Some(key.end)
      case Both(key, value) =>
        if s[value.end] == '}' then Some(key.end)
        else
          var rest := LastKeyEnd(s, SkipSpace(s, value.end + 1));
          if rest.Some? then rest else Some(key.end)
  }

  lemma {:induction false} LastKeyAlone(s: string, i: nat)
    ensures |ScanMap(s, i).keys| > |ScanMap(s, i).values| <==>
            LastKeyEnd(s, i).Some? && FindStop(s, SkipSpace(s, LastKeyEnd(s, i).value + 1), false).None?
    decreases |s| - i
  {
    if i < |s| && EntryAt(s, i).Both? && s[EntryAt(s, i).value.end] != '}' {
      LastKeyAlone(s, SkipSpace(s, EntryAt(s, i).value.end + 1));
    }
  }

  /** Slots are allocated for the values counted, but a key is written before its value is found: the
      filling pass stays within them exactly if a value ends behind the last key. */
  lemma {:induction false} MapWritesFitIff(s: string)
    ensures |SplitMap(s).keys| <= |SplitMap(s).values| <==>
            match BraceStart(s)
            case None => true
            case Some(k) =>
              LastKeyEnd(s, k).Some? ==> FindStop(s, SkipSpace(s, LastKeyEnd(s, k).value + 1), false).Some?
  {
    if BraceStart(s).Some? { LastKeyAlone(s, BraceStart(s).value); }
  }

  lemma {:induction false} MapOverrun()
    ensures var s := "{a=1,b="; |SplitMap(s).keys| == 2 && |SplitMap(s).values| == 1 && !SplitMap(s).ok
  {
    var s := "{a=1,b=";
    assert SkipSpace(s, 0) == 0 && SkipSpace(s, 1) == 1;
    assert FindStop(s, 1, true) == Some(2) by { assert FindStop(s, 2, true) == Some(2); }
    assert SkipSpace(s, 3) == 3;
    assert FindStop(s, 3, false) == Some(4) by { assert FindStop(s, 4, false) == Some(4); }
    assert SkipSpace(s, 5) == 5;
    assert FindStop(s, 5, true) == Some(6) by { assert FindStop(s, 6, true) == Some(6); }
    assert SkipSpace(s, 7) == 7 && FindStop(s, 7, false) == None;
    assert ScanMap(s, 5) == MapSplit([Range(5, 6)], [], false);
  }

  // ----- structs -----

  /** The first colon, wherever it is. */
  function FindColon(s: string, i: nat): (r: Option<nat>)
    ensures r.Some? ==> i <= r.value < |s| && s[r.value] == ':'
    decreases |s| - i
  {
    if i >= |s| then None else if s[i] == ':' then Some(i) else FindColon(s, i + 1)
  }

  /** A pair of equal quotes around a text is taken off. A lone quote is both: no text is left. */
  function TrimQuotes(text: string): Option<string> {
    if text == "" || !IsQuote(text[0]) || text[|text| - 1] != text[0] then Some(text)
    else if |text| == 1 then None
    else Some(text[1..|text| - 1])
  }

  datatype Field = Field(name: string, value: string)
  datatype Verdict = Good | Malformed | UnknownField | LoneQuote

  /** Field names are cut at the first colon and looked up; then values are cut at the first stop. */
  datatype FieldAt = NoField(verdict: Verdict) | Found(field: Field, stop: nat)

  function NextField(s: string, names: seq<string>, i: nat): (r: FieldAt)
    requires i < |s|
    ensures r.Found? ==> i < r.stop < |s| && Stops(false, s[r.stop]) && r.field.name in names
    ensures r.NoField? ==> r.verdict != Good
  {
    match FindColon(s, i)
    case None => NoField(Malformed)
    case Some(j) =>
      match TrimQuotes(s[i..TrimRight(s, i, j)])
      case None => NoField(LoneQuote)
      case Some(name) =>
        if name !in names then NoField(UnknownField)
        else
          var v := SkipSpace(s, j + 1);
          match FindStop(s, v, false)
          case None => NoField(Malformed)
          case Some(e) =>
            match TrimQuotes(s[v..TrimRight(s, v, e)])
            case None => NoField(LoneQuote)
            case Some(value) => Found(Field(name, value), e)
  }

  function ScanStruct(s: string, names: seq<string>, i: nat): (r: (seq<Field>, Verdict))
    decreases |s| - i
  {
    if i >= |s| then ([], Malformed)
    else
      match NextField(s, names, i)
      case NoField(verdict) => ([], verdict)
      case Found(field, e) =>
        var next := SkipSpace(s, e + 1);
        if s[e] == '}' then ([field], if next == |s| then Good else Malformed)
        else var rest := ScanStruct(s, names, next); ([field] + rest.0, rest.1)
  }

  function StructSplit(s: string, names: seq<string>): (seq<Field>, Verdict) {
    match BraceStart(s)
    case None => ([], if EmptyBraces(s) then Good else Malformed)
    case Some(k) => ScanStruct(s, names, k)
  }

  method ParseStructFieldName(s: string, at: nat) returns (ok: bool, at': nat)
    ensures ok <==> FindColon(s, at).Some?
    ensures ok ==> FindColon(s, at) == Some(at')
  {
    at' := at;
    while at' < |s|
      invariant at <= at' && FindColon(s, at') == FindColon(s, at)
    {
      if s[at'] == ':' { return true, at'; }
      at' := at' + 1;
    }
    ok := false;
  }

  method ParseField(s: string, names: seq<string>, at: nat) returns (r: FieldAt)
    requires at < |s|
    ensures r == NextField(s, names, at)
  {
    var ok, j := ParseStructFieldName(s, at);
    if !ok { return NoField(Malformed); }
    var name := TrimQuotes(s[at..TrimRight(s, at, j)]);
    if name.None? { return NoField(LoneQuote); }
    if name.value !in names { return NoField(UnknownField); }
    var v := SkipSpace(s, j + 1);
    var found, e := ParseStructFieldValue(s, v);
    if !found { return NoField(Malformed); }
    var value := TrimQuotes(s[v..TrimRight(s, v, e)]);
    r := if value.None? then NoField(LoneQuote) else Found(Field(name.value, value.value), e);
  }

  method CastFields(s: string, names: seq<string>, start: nat) returns (fields: seq<Field>, verdict: Verdict)
    ensures (fields, verdict) == ScanStruct(s, names, start)
  {
    fields := [];
    var at: nat := start;
    ghost var whole := ScanStruct(s, names, start);
    assert [] + whole.0 == whole.0;
    while at < |s|
      invariant fields + ScanStruct(s, names, at).0 == whole.0 && ScanStruct(s, names, at).1 == whole.1
      decreases |s| - at
    {
      var next := ParseField(s, names, at);
      assert fields + [] == fields;
      if next.NoField? { return fields, next.verdict; }
      var e := next.stop;
      if s[e] == '}' {
        LastField(s, names, at);
        return fields + [next.field], if SkipSpace(s, e + 1) == |s| then Good else Malformed;
      }
      MoreFields(s, names, at, fields);
      fields := fields + [next.field];
      at := SkipSpace(s, e + 1);
    }
    verdict := Malformed;
    assert fields + [] == fields;
  }

  /** Casting a struct: the fields written and the verdict. Fields found before the text turns out
      malformed have been written. */
  method CastStruct(s: string, names: seq<string>) returns (fields: seq<Field>, verdict: Verdict)
    ensures (fields, verdict) == StructSplit(s, names)
  {
    var start, empty := OpenBraces(s);
    if start.None? { return [], if empty then Good else Malformed; }
    fields, verdict := CastFields(s, names, start.value);
  }

  lemma {:induction false} LastField(s: string, names: seq<string>, i: nat)
    requires i < |s| && NextField(s, names, i).Found? && s[NextField(s, names, i).stop] == '}'
    ensures ScanStruct(s, names, i).0 == [NextField(s, names, i).field]
    ensures ScanStruct(s, names, i).1 ==
            if SkipSpace(s, NextField(s, names, i).stop + 1) == |s| then Good else Malformed
  {
  }

  lemma {:induction false} MoreFields(s: string, names: seq<string>, i: nat, fields: seq<Field>)
    requires i < |s| && NextField(s, names, i).Found? && s[NextField(s, names, i).stop] != '}'
    ensures var rest := ScanStruct(s, names, SkipSpace(s, NextField(s, names, i).stop + 1));
            && ScanStruct(s, names, i).1 == rest.1
            && fields + ScanStruct(s, names, i).0 == fields + [NextField(s, names, i).field] + rest.0
  {
    var next := NextField(s, names, i);
    var rest := ScanStruct(s, names, SkipSpace(s, next.stop + 1));
    assert ScanStruct(s, names, i).0 == [next.field] + rest.0;
    assert fields + ([next.field] + rest.0) == fields + [next.field] + rest.0;
  }
}
