/** Maps as text: printing them, and splitting what was printed. */
module NestedMaps {
  import opened NestedText
  import opened NestedScanner
  import opened NestedPrinter
  import MapGrammar

  datatype MapEntry = MapEntry(key: Val, val: Val)

  function EntryText(e: MapEntry): string {
    Print(e.key) + "=" + Print(e.val)
  }

  function PrintEntries(es: seq<MapEntry>): string {
    if es == [] then "" else EntryText(es[0]) + if |es| == 1 then "" else ", " + PrintEntries(es[1..])
  }

  function EntryTexts(es: seq<MapEntry>): (r: seq<string>)
    ensures |r| == |es|
  {
    seq(|es|, i requires 0 <= i < |es| => Print(es[i].key) + "=" + Print(es[i].val))
  }

  /** The entries, each a key, an equals sign and a value, with a comma and a space between them. */
  lemma {:induction false} EntriesJoined(es: seq<MapEntry>)
    ensures PrintEntries(es) == Joined(EntryTexts(es), ", ")
  {
    if |es| > 1 {
      EntriesJoined(es[1..]);
      JoinedFirst(EntryTexts(es), ", ");
      assert EntryTexts(es)[1..] == EntryTexts(es[1..]);
    } else if |es| == 1 {
      assert PrintEntries(es) == EntryText(es[0]) + "";
    }
  }

  method MapToString(es: seq<MapEntry>) returns (r: string)
    ensures r == "{" + PrintEntries(es) + "}"
  {
    if |es| == 0 { return "{}"; }
    r := "{";
    var i := 0;
    assert es[0..] == es;
    while i < |es| - 1
      invariant 0 <= i < |es| && r + PrintEntries(es[i..]) == "{" + PrintEntries(es)
    {
      var key := ToString(es[i].key);
      var val := ToString(es[i].val);
      assert es[i..][1..] == es[i + 1..];
      assert r + (EntryText(es[i]) + (", " + PrintEntries(es[i + 1..]))) ==
             r + (key + "=" + val) + ", " + PrintEntries(es[i + 1..]);
      r := r + (key + "=" + val) + ", ";
      i := i + 1;
    }
    var key := ToString(es[i].key);
    var val := ToString(es[i].val);
    assert PrintEntries(es[i..]) == (key + "=" + val) + "";
    r := r + (key + "=" + val) + "}";
  }

  /** Keys and values are plain, and no key is null. */
  ghost predicate EntryOk(e: MapEntry) {
    AllPlain(e.key) && !e.key.Null? && AllPlain(e.val)
  }

  /** One printed entry stands at `i` and ends before `end`. */
  ghost predicate EntryStands(s: string, i: nat, e: MapEntry, end: nat) {
    var k := i + |Print(e.key)|;
    && end == k + 1 + |Print(e.val)| && end < |s|
    && Holds(s, i, Print(e.key)) && s[k] == '=' && Holds(s, k + 1, Print(e.val))
  }

  /** Printed entries, separators between them and a closing brace make up the text from `i` on. */
  ghost predicate Entries(s: string, i: nat, es: seq<MapEntry>)
    requires es != []
    decreases |es|
  {
    var end := i + |EntryText(es[0])|;
    && Holds(s, i, EntryText(es[0])) && end < |s|
    && if |es| == 1 then s[end] == '}' && end + 1 == |s|
       else s[end] == ',' && end + 2 < |s| && s[end + 1] == ' ' && Entries(s, end + 2, es[1..])
  }

  lemma {:induction false} EntriesStand(s: string, i: nat, es: seq<MapEntry>)
    requires es != [] && Holds(s, i, PrintEntries(es) + "}") && i + |PrintEntries(es)| + 1 == |s|
    ensures Entries(s, i, es)
    decreases |es|
  {
    var text := EntryText(es[0]);
    var end := i + |text|;
    if |es| == 1 {
      assert PrintEntries(es) + "}" == text + "}";
      HoldsSplit(s, i, text, "}");
      HoldsAt(s, end, "}", 0);
    } else {
      var rest := PrintEntries(es[1..]) + "}";
      assert PrintEntries(es) + "}" == text + (", " + rest);
      HoldsSplit(s, i, text, ", " + rest);
      HoldsSplit(s, end, ", ", rest);
      HoldsAt(s, end, ", ", 0);
      HoldsAt(s, end, ", ", 1);
      EntriesStand(s, end + 2, es[1..]);
    }
  }

  lemma {:induction false} OneStands(s: string, i: nat, e: MapEntry)
    requires Holds(s, i, EntryText(e)) && i + |EntryText(e)| < |s|
    ensures EntryStands(s, i, e, i + |EntryText(e)|)
  {
    HoldsSplit(s, i, Print(e.key) + "=", Print(e.val));
    HoldsSplit(s, i, Print(e.key), "=");
    HoldsAt(s, i + |Print(e.key)|, "=", 0);
  }

  lemma {:induction false} StopBehind(s: string, i: nat, v: Val, e: nat, isKey: bool)
    requires AllPlain(v) && Holds(s, i, Print(v)) && e == i + |Print(v)| && e < |s| && Stops(isKey, s[e])
    ensures FindStop(s, i, isKey) == Some(e)
  {
    StopValue(s, i, v, isKey);
  }

  lemma {:induction false} NoSpaceBefore(s: string, i: nat, v: Val)
    requires AllPlain(v) && Holds(s, i, Print(v)) && i + |Print(v)| < |s| && !IsSpace(s[i + |Print(v)|])
    ensures SkipSpace(s, i) == i
  {
    if !v.Null? {
      FirstChar(v);
      HoldsAt(s, i, Print(v), 0);
    }
    NoSpaceAt(s, i);
  }

  function KeyRange(i: nat, e: MapEntry): Range {
    Range(i, i + |Print(e.key)|)
  }

  function ValueRange(i: nat, e: MapEntry): Range {
    Range(i + |Print(e.key)| + 1, i + |EntryText(e)|)
  }

  lemma {:induction false} EntriesStart(s: string, i: nat, es: seq<MapEntry>)
    requires es != [] && EntryOk(es[0]) && Entries(s, i, es)
    ensures i < |s| && !IsSpace(s[i]) && s[i] != '}'
  {
    FirstChar(es[0].key);
    HoldsAt(s, i, EntryText(es[0]), 0);
  }

  lemma {:induction false} NextEntry(s: string, end: nat, es: seq<MapEntry>)
    requires es != [] && EntryOk(es[0]) && end + 2 < |s| && s[end + 1] == ' ' && Entries(s, end + 2, es)
    ensures SkipSpace(s, end + 1) == end + 2
  {
    EntriesStart(s, end + 2, es);
    NoSpaceAt(s, end + 2);
  }

  /** Where the keys and the values of a printed map stand. */
  function KeyRanges(i: nat, es: seq<MapEntry>): (r: seq<Range>)
    ensures |r| == |es|
    decreases |es|
  {
    if es == [] then [] else [KeyRange(i, es[0])] + KeyRanges(i + |EntryText(es[0])| + 2, es[1..])
  }

  function ValueRanges(i: nat, es: seq<MapEntry>): (r: seq<Range>)
    ensures |r| == |es|
    decreases |es|
  {
    if es == [] then [] else [ValueRange(i, es[0])] + ValueRanges(i + |EntryText(es[0])| + 2, es[1..])
  }

  lemma {:induction false} RangesCons(i: nat, es: seq<MapEntry>)
    requires es != []
    ensures var next := i + |EntryText(es[0])| + 2;
            && KeyRanges(i, es) == [KeyRange(i, es[0])] + KeyRanges(next, es[1..])
            && ValueRanges(i, es) == [ValueRange(i, es[0])] + ValueRanges(next, es[1..])
    ensures |es| == 1 ==> KeyRanges(i, es) == [KeyRange(i, es[0])] && ValueRanges(i, es) == [ValueRange(i, es[0])]
  {
  }

  /** What the scanner sees of one printed entry behind white space. */
  lemma {:induction false} EntrySeen(s: string, start: nat, i: nat, e: MapEntry) returns (p: MapGrammar.Pair)
    requires EntryOk(e) && Holds(s, i, EntryText(e)) && SkipSpace(s, start) == i
    requires var end := i + |EntryText(e)|; end < |s| && Stops(false, s[end])
    ensures MapGrammar.Seen(s, p) && p.start == start && p.end == i + |EntryText(e)|
    ensures Range(p.key, p.sign) == KeyRange(i, e) && Range(p.value, p.end) == ValueRange(i, e)
  {
    OneStands(s, i, e);
    var k, end := i + |Print(e.key)|, i + |EntryText(e)|;
    StopBehind(s, i, e.key, k, true);
    NoSpaceBefore(s, k + 1, e.val);
    StopBehind(s, k + 1, e.val, end, false);
    p := MapGrammar.Pair(start, i, k, k + 1, end, [], []);
  }

  lemma {:induction false} FirstSeen(s: string, start: nat, i: nat, es: seq<MapEntry>) returns (p: MapGrammar.Pair)
    requires es != [] && Entries(s, i, es) && forall k :: 0 <= k < |es| ==> EntryOk(es[k])
    requires SkipSpace(s, start) == i
    ensures MapGrammar.Seen(s, p) && p.start == start && p.end == i + |EntryText(es[0])| < |s|
    ensures Range(p.key, p.sign) == KeyRange(i, es[0]) && Range(p.value, p.end) == ValueRange(i, es[0])
    ensures |es| == 1 ==> s[p.end] == '}' && p.end + 1 == |s|
    ensures |es| > 1 ==> s[p.end] == ',' && Entries(s, p.end + 2, es[1..]) && SkipSpace(s, p.end + 1) == p.end + 2
  {
    p := EntrySeen(s, start, i, es[0]);
    if |es| > 1 { NextEntry(s, p.end, es[1..]); }
  }

  lemma {:induction false} EntriesSeen(s: string, start: nat, i: nat, es: seq<MapEntry>)
    returns (ps: seq<MapGrammar.Pair>)
    requires es != [] && Entries(s, i, es) && forall k :: 0 <= k < |es| ==> EntryOk(es[k])
    requires SkipSpace(s, start) == i
    ensures MapGrammar.SeenAs(s, ps, start, KeyRanges(i, es), ValueRanges(i, es))
    decreases |es|
  {
    var p := FirstSeen(s, start, i, es);
    RangesCons(i, es);
    if |es| == 1 {
      MapGrammar.SeenOne(s, p);
      return [p];
    }
    var rest := EntriesSeen(s, p.end + 1, p.end + 2, es[1..]);
    MapGrammar.SeenCons(s, p, rest, KeyRanges(p.end + 2, es[1..]), ValueRanges(p.end + 2, es[1..]));
    ps := [p] + rest;
  }

  lemma {:induction false} EntriesScanned(s: string, i: nat, es: seq<MapEntry>)
    requires es != [] && Entries(s, i, es) && forall k :: 0 <= k < |es| ==> EntryOk(es[k])
    ensures ScanMap(s, i) == MapSplit(KeyRanges(i, es), ValueRanges(i, es), true)
  {
    EntriesStart(s, i, es);
    NoSpaceAt(s, i);
    var ps := EntriesSeen(s, i, i, es);
    MapGrammar.ScanSeen(s, ps);
    assert s[|s|..] == "";
  }

  /** A range of the text, which is that of a printed value. */
  ghost predicate Covers(s: string, r: Range, v: Val) {
    r.end == r.start + |Print(v)| && Holds(s, r.start, Print(v))
  }

  ghost predicate CoversAt(s: string, keys: seq<Range>, values: seq<Range>, es: seq<MapEntry>, k: int)
    requires |keys| == |values| == |es| && 0 <= k < |es|
  {
    Covers(s, keys[k], es[k].key) && Covers(s, values[k], es[k].val)
  }

  lemma {:induction false} RangesCover(s: string, i: nat, es: seq<MapEntry>, k: nat)
    requires es != [] && Entries(s, i, es) && k < |es|
    ensures CoversAt(s, KeyRanges(i, es), ValueRanges(i, es), es, k)
    decreases |es|
  {
    RangesCons(i, es);
    if k == 0 {
      OneStands(s, i, es[0]);
    } else {
      var next := i + |EntryText(es[0])| + 2;
      RangesCover(s, next, es[1..], k - 1);
      assert KeyRanges(i, es)[k] == KeyRanges(next, es[1..])[k - 1] &&
             ValueRanges(i, es)[k] == ValueRanges(next, es[1..])[k - 1];
    }
  }

  /** Splitting a printed map gives back the texts of all its keys and values, in order. */
  lemma {:induction false} SplitPrintedMap(es: seq<MapEntry>)
    requires forall k :: 0 <= k < |es| ==> EntryOk(es[k])
    ensures var s := "{" + PrintEntries(es) + "}";
            var m := SplitMap(s);
            && m.ok && |m.keys| == |m.values| == |es|
            && forall k :: 0 <= k < |es| ==> CoversAt(s, m.keys, m.values, es, k)
  {
    var s := "{" + PrintEntries(es) + "}";
    assert s == "{" + (PrintEntries(es) + "}");
    assert Holds(s, 1, PrintEntries(es) + "}");
    if es != [] {
      EntriesStand(s, 1, es);
      EntriesStart(s, 1, es);
      EntriesScanned(s, 1, es);
      forall k | 0 <= k < |es| ensures CoversAt(s, KeyRanges(1, es), ValueRanges(1, es), es, k) {
        RangesCover(s, 1, es, k);
      }
    }
    BracesFrom(s);
  }

  // ----- any text -----

  /** Keys and values lie in the text from `lo` on, in turns and one behind the other. */
  ghost predicate InTurns(m: MapSplit, lo: nat, hi: nat) {
    |m.values| <= |m.keys| <= |m.values| + 1 && forall k :: 0 <= k < |m.keys| ==> TurnAt(m, k, lo, hi)
  }

  /** A key, behind it its value if there is one, and behind that the next key. */
  ghost predicate TurnAt(m: MapSplit, k: int, lo: nat, hi: nat)
    requires |m.values| <= |m.keys| <= |m.values| + 1 && 0 <= k < |m.keys|
  {
    && lo <= m.keys[k].start <= m.keys[k].end < hi
    && (k < |m.values| ==> m.keys[k].end < m.values[k].start <= m.values[k].end < hi)
    && (k + 1 < |m.keys| ==> m.values[k].end < m.keys[k + 1].start)
  }

  /** On every input, malformed ones too, keys and values are disjoint and in order. */
  lemma {:induction false} MapPartsOrdered(s: string, i: nat)
    ensures InTurns(ScanMap(s, i), i, |s|)
    decreases |s| - i
  {
    if i < |s| {
      var entry := EntryAt(s, i);
      ScanMapAt(s, i, entry);
      if entry.Both? && s[entry.value.end] != '}' {
        var next := SkipSpace(s, entry.value.end + 1);
        MapPartsOrdered(s, next);
        TurnFirst(entry.key, entry.value, ScanMap(s, next), i, next, |s|);
      }
    }
  }

  /** The scan from a position, by what stands there. */
  lemma {:induction false} ScanMapAt(s: string, i: nat, entry: Entry)
    requires i < |s| && entry == EntryAt(s, i)
    ensures entry.Neither? ==> ScanMap(s, i) == MapSplit([], [], false)
    ensures entry.KeyOnly? ==> ScanMap(s, i) == MapSplit([entry.key], [], false)
    ensures entry.Both? ==>
              var next := SkipSpace(s, entry.value.end + 1);
              ScanMap(s, i) == if s[entry.value.end] == '}' then MapSplit([entry.key], [entry.value], next == |s|)
                               else Before(MapSplit([entry.key], [entry.value], false), ScanMap(s, next))
  {
  }

  lemma {:induction false} TurnFirst(key: Range, value: Range, m: MapSplit, lo: nat, next: nat, hi: nat)
    requires InTurns(m, next, hi) && lo <= key.start <= key.end < value.start <= value.end < next && value.end < hi
    ensures InTurns(Before(MapSplit([key], [value], false), m), lo, hi)
  {
    var r := Before(MapSplit([key], [value], false), m);
    forall k | 0 <= k < |r.keys| ensures TurnAt(r, k, lo, hi) {
      if k > 0 { assert TurnAt(m, k - 1, next, hi); } else if m.keys != [] { assert TurnAt(m, 0, next, hi); }
    }
  }
}
