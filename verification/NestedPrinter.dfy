/** Printing nested values, and casting the printed text back. */
module NestedPrinter {
  import opened NestedText
  import opened NestedScanner
  import StructGrammar

  datatype Val = Null | Leaf(text: string) | ListVal(elems: seq<Val>) | StructVal(fields: seq<NamedVal>)
  datatype NamedVal = NamedVal(name: string, val: Val)

  // ----- the printer -----

  function Print(v: Val): string {
    match v
    case Null => ""
    case Leaf(text) => text
    case ListVal(elems) => "[" + PrintElems(elems) + "]"
    case StructVal(fields) => "{" + PrintFields(fields) + "}"
  }

  function PrintElems(vs: seq<Val>): string {
    if vs == [] then "" else Print(vs[0]) + if |vs| == 1 then "" else "," + PrintElems(vs[1..])
  }

  function PrintFields(fs: seq<NamedVal>): string {
    if fs == [] then ""
    else fs[0].name + ": " + Print(fs[0].val) + if |fs| == 1 then "" else ", " + PrintFields(fs[1..])
  }

  /** Texts one behind the other with a separator between them. */
  function Joined(texts: seq<string>, separator: string): string {
    if texts == [] then ""
    else if |texts| == 1 then texts[0]
    else Joined(texts[..|texts| - 1], separator) + separator + texts[|texts| - 1]
  }

  lemma {:induction false} JoinedFirst(texts: seq<string>, separator: string)
    requires |texts| > 1
    ensures Joined(texts, separator) == texts[0] + separator + Joined(texts[1..], separator)
  {
    var n := |texts| - 1;
    if n > 1 {
      JoinedFirst(texts[..n], separator);
      assert texts[..n][1..] == texts[1..][..n - 1];
    } else {
      assert texts[..1] == [texts[0]] && texts[1..] == [texts[1]];
    }
  }

  function ElemTexts(vs: seq<Val>): (r: seq<string>)
    ensures |r| == |vs|
  {
    seq(|vs|, i requires 0 <= i < |vs| => Print(vs[i]))
  }

  function NamedTexts(fs: seq<NamedVal>): (r: seq<string>)
    ensures |r| == |fs|
  {
    seq(|fs|, i requires 0 <= i < |fs| => fs[i].name + ": " + Print(fs[i].val))
  }

  lemma {:induction false} ElemsJoined(vs: seq<Val>)
    ensures PrintElems(vs) == Joined(ElemTexts(vs), ",")
  {
    if |vs| > 1 {
      ElemsJoined(vs[1..]);
      JoinedFirst(ElemTexts(vs), ",");
      assert ElemTexts(vs)[1..] == ElemTexts(vs[1..]);
    } else if |vs| == 1 {
      assert PrintElems(vs) == Print(vs[0]) + "";
    }
  }

  lemma {:induction false} FieldsJoined(fs: seq<NamedVal>)
    ensures PrintFields(fs) == Joined(NamedTexts(fs), ", ")
  {
    if |fs| > 1 {
      FieldsJoined(fs[1..]);
      JoinedFirst(NamedTexts(fs), ", ");
      assert NamedTexts(fs)[1..] == NamedTexts(fs[1..]);
    } else if |fs| == 1 {
      assert PrintFields(fs) == fs[0].name + ": " + Print(fs[0].val) + "";
    }
  }

  /** The text of a value: nothing for null, a leaf as it is, the elements of a list in brackets with commas
      between them, and the fields of a struct in braces, each behind its name. */
  lemma {:induction false} PrintIs(v: Val)
    ensures match v
            case Null => Print(v) == ""
            case Leaf(text) => Print(v) == text
            case ListVal(elems) => Print(v) == "[" + Joined(ElemTexts(elems), ",") + "]"
            case StructVal(fields) => Print(v) == "{" + Joined(NamedTexts(fields), ", ") + "}"
  {
    if v.ListVal? { ElemsJoined(v.elems); }
    if v.StructVal? { FieldsJoined(v.fields); }
  }

  method ToString(v: Val) returns (r: string)
    ensures r == Print(v)
    decreases v
  {
    match v
    case Null => r := "";
    case Leaf(text) => r := text;
    case ListVal(elems) => r := ListToString(elems);
    case StructVal(fields) => r := StructToString(fields);
  }

  method ListToString(vs: seq<Val>) returns (r: string)
    ensures r == "[" + PrintElems(vs) + "]"
    decreases vs, 0
  {
    if |vs| == 0 { return "[]"; }
    r := "[";
    var i := 0;
    assert vs[0..] == vs;
    while i < |vs| - 1
      invariant 0 <= i < |vs| && r + PrintElems(vs[i..]) == "[" + PrintElems(vs)
    {
      var text := ToString(vs[i]);
      assert vs[i..][1..] == vs[i + 1..];
      r := r + text + ",";
      i := i + 1;
    }
    var text := ToString(vs[i]);
    assert PrintElems(vs[i..]) == text + "";
    r := r + text + "]";
  }

  function FieldText(f: NamedVal): string {
    f.name + ": " + Print(f.val)
  }

  lemma {:induction false} FieldsFrom(fs: seq<NamedVal>, i: nat, before: string)
    requires i < |fs|
    ensures i + 1 == |fs| ==> before + PrintFields(fs[i..]) == before + FieldText(fs[i])
    ensures i + 1 < |fs| ==>
              before + PrintFields(fs[i..]) == before + FieldText(fs[i]) + ", " + PrintFields(fs[i + 1..])
  {
    assert fs[i..][1..] == fs[i + 1..];
    if i + 1 < |fs| {
      assert before + (FieldText(fs[i]) + (", " + PrintFields(fs[i + 1..]))) ==
             before + FieldText(fs[i]) + ", " + PrintFields(fs[i + 1..]);
    } else {
      assert FieldText(fs[i]) + "" == FieldText(fs[i]);
    }
  }

  method StructToString(fs: seq<NamedVal>) returns (r: string)
    ensures r == "{" + PrintFields(fs) + "}"
    decreases fs, 0
  {
    if |fs| == 0 { return "{}"; }
    r := "{";
    var i := 0;
    assert fs[0..] == fs;
    ghost var whole := "{" + PrintFields(fs);
    while i < |fs| - 1
      invariant 0 <= i < |fs| && (if i == 0 then r else r + ", ") + PrintFields(fs[i..]) == whole
    {
      var text := ToString(fs[i].val);
      if i != 0 { r := r + ", "; }
      FieldsFrom(fs, i, r);
      r := r + (fs[i].name + ": " + text);
      i := i + 1;
    }
    var text := ToString(fs[i].val);
    if i != 0 { r := r + ", "; }
    FieldsFrom(fs, i, r);
    r := r + (fs[i].name + ": " + text);
    r := r + "}";
  }

  // ----- the cast -----

  datatype Shape = LeafShape | ListShape(elem: Shape) | StructShape(names: seq<string>, shapes: seq<Shape>)

  predicate IsNullText(text: string) {
    var a := SkipSpace(text, 0);
    a == |text| ||
    (a + 4 <= |text| && text[a] in "nN" && text[a + 1] in "uU" && text[a + 2] in "lL" && text[a + 3] in "lL" &&
     SkipSpace(text, a + 4) == |text|)
  }

  /** The word null, each letter in either case. */
  predicate IsNullWord(text: string) {
    && |text| == 4 && (text[0] == 'n' || text[0] == 'N') && (text[1] == 'u' || text[1] == 'U')
    && (text[2] == 'l' || text[2] == 'L') && (text[3] == 'l' || text[3] == 'L')
  }

  /** The word null stands at a position, with white space before and behind it. */
  ghost predicate NullAt(text: string, a: nat) {
    && a + 4 <= |text| && IsNullWord(text[a..a + 4])
    && AllSpace(text[..a]) && AllSpace(text[a + 4..])
  }

  /** A text is null exactly if it is white space around nothing or around the word null. */
  lemma {:induction false} NullTextIff(text: string)
    ensures IsNullText(text) <==> AllSpace(text) || exists a: nat :: NullAt(text, a)
  {
    var b := SkipSpace(text, 0);
    SkipsTo(text, 0);
    if b == |text| {
      assert text[0..b] == text;
    } else {
      NullWordAt(text, b);
      forall a: nat | NullAt(text, a) ensures a == b { SpaceUpTo(text, a, b); }
    }
  }

  lemma {:induction false} NullWordAt(text: string, b: nat)
    requires b == SkipSpace(text, 0) < |text|
    ensures IsNullText(text) <==> NullAt(text, b)
  {
    SkipsTo(text, 0);
    if b + 4 <= |text| {
      var word, rest := text[b..b + 4], text[b + 4..];
      assert word[0] == text[b] && word[1] == text[b + 1] && word[2] == text[b + 2] && word[3] == text[b + 3];
      SkipsTo(text, b + 4);
      assert text[b + 4..|text|] == rest && text[0..b] == text[..b];
      RestIsSpace(text, b + 4);
    }
  }

  lemma {:induction false} SpaceUpTo(text: string, a: nat, b: nat)
    requires NullAt(text, a) && b < |text| && AllSpace(text[..b]) && !IsSpace(text[b])
    ensures a == b
  {
    assert text[a..a + 4][0] == text[a];
  }

  /** The cast of a text to a type; leaves are kept as text. */
  function Cast(text: string, shape: Shape): Option<Val>
    decreases shape, 1
  {
    if IsNullText(text) then Some(Null)
    else match shape
      case LeafShape => Some(Leaf(text))
      case ListShape(elem) =>
        var split := ListSplit(text);
        if !split.ok then None else CastElems(text, split.parts, elem)
      case StructShape(names, shapes) =>
        var (fields, verdict) := StructSplit(text, names);
        if verdict != Good || |names| != |shapes| then None else CastFieldsOf(fields, names, shapes)
  }

  function CastElems(s: string, parts: seq<Range>, elem: Shape): Option<Val>
    requires forall k :: 0 <= k < |parts| ==> parts[k].start <= parts[k].end <= |s|
    decreases elem, 2, |parts|
  {
    if parts == [] then Some(ListVal([]))
    else
      match Cast(Trimmed(s, parts[0]), elem)
      case None => None
      case Some(v) =>
        match CastElems(s, parts[1..], elem)
        case Some(ListVal(vs)) => Some(ListVal([v] + vs))
        case _ => None
  }

  /** The text given last for a field. */
  function TextFor(fields: seq<Field>, name: string): Option<string> {
    if fields == [] then None
    else
      var rest := TextFor(fields[1..], name);
      if rest.Some? then rest else if fields[0].name == name then Some(fields[0].value) else None
  }

  /** A field without text stays null. */
  function CastFieldsOf(fields: seq<Field>, names: seq<string>, shapes: seq<Shape>): Option<Val>
    requires |names| == |shapes|
    decreases shapes, 0
  {
    if names == [] then Some(StructVal([]))
    else
      var text := TextFor(fields, names[0]);
      match if text.None? then Some(Null) else Cast(text.value, shapes[0])
      case None => None
      case Some(v) =>
        match CastFieldsOf(fields, names[1..], shapes[1..])
        case Some(StructVal(fs)) => Some(StructVal([NamedVal(names[0], v)] + fs))
        case _ => None
  }

  // ----- which values -----

  predicate IsPlainChar(c: char) {
    !IsSpace(c) && c !in "[]{},:='\""
  }

  ghost predicate IsPlain(text: string) {
    text != "" && forall k :: 0 <= k < |text| ==> IsPlainChar(text[k])
  }

  ghost predicate HasShape(v: Val, shape: Shape)
    decreases v
  {
    match v
    case Null => true
    case Leaf(text) => shape.LeafShape? && IsPlain(text) && !IsNullText(text)
    case ListVal(elems) => shape.ListShape? && forall k :: 0 <= k < |elems| ==> HasShape(elems[k], shape.elem)
    case StructVal(fields) =>
      && shape.StructShape? && |fields| == |shape.names| == |shape.shapes|
      && (forall k :: 0 <= k < |fields| ==> fields[k].name == shape.names[k] && IsPlain(fields[k].name))
      && (forall k, n :: 0 <= k < n < |fields| ==> fields[k].name != fields[n].name)
      && (forall k :: 0 <= k < |fields| ==> HasShape(fields[k].val, shape.shapes[k]))
  }

  /** Nowhere a list whose only element is null. */
  ghost predicate NoLoneNull(v: Val) {
    match v
    case Null => true
    case Leaf(_) => true
    case ListVal(elems) => elems != [Null] && forall k :: 0 <= k < |elems| ==> NoLoneNull(elems[k])
    case StructVal(fields) => forall k :: 0 <= k < |fields| ==> NoLoneNull(fields[k].val)
  }

  /** All names and leaves are plain text. */
  ghost predicate AllPlain(v: Val) {
    match v
    case Null => true
    case Leaf(text) => IsPlain(text)
    case ListVal(elems) => forall k :: 0 <= k < |elems| ==> AllPlain(elems[k])
    case StructVal(fields) => forall k :: 0 <= k < |fields| ==> IsPlain(fields[k].name) && AllPlain(fields[k].val)
  }

  lemma {:induction false} ShapedIsPlain(v: Val, shape: Shape)
    requires HasShape(v, shape)
    ensures AllPlain(v)
    decreases v
  {
    match v
    case Null =>
    case Leaf(_) =>
    case ListVal(elems) =>
      forall k | 0 <= k < |elems| ensures AllPlain(elems[k]) { ShapedIsPlain(elems[k], shape.elem); }
    case StructVal(fields) =>
      forall k | 0 <= k < |fields| ensures AllPlain(fields[k].val) { ShapedIsPlain(fields[k].val, shape.shapes[k]); }
  }

  // ----- printed text is made of well-formed items -----

  function PlainItems(text: string): seq<Item> {
    if text == "" then [] else [Plain(text[0])] + PlainItems(text[1..])
  }

  function ItemsOf(v: Val): seq<Item> {
    match v
    case Null => []
    case Leaf(text) => PlainItems(text)
    case ListVal(elems) => [Nested('[', ElemItems(elems))]
    case StructVal(fields) => [Nested('{', FieldItems(fields))]
  }

  function ElemItems(vs: seq<Val>): seq<Item> {
    if vs == [] then [] else ItemsOf(vs[0]) + if |vs| == 1 then [] else [Plain(',')] + ElemItems(vs[1..])
  }

  function FieldItems(fs: seq<NamedVal>): seq<Item> {
    if fs == [] then []
    else
      PlainItems(fs[0].name + ": ") + ItemsOf(fs[0].val) +
      if |fs| == 1 then [] else PlainItems(", ") + FieldItems(fs[1..])
  }

  lemma {:induction false} RenderConcat(a: seq<Item>, b: seq<Item>, target: char)
    ensures Render(a + b) == Render(a) + Render(b)
    ensures ItemsOk(a + b, target) <==> ItemsOk(a, target) && ItemsOk(b, target)
  {
    if a == [] {
      assert a + b == b;
    } else {
      assert (a + b)[1..] == a[1..] + b;
      RenderConcat(a[1..], b, target);
    }
  }

  ghost predicate Harmless(text: string, target: char) {
    forall k :: 0 <= k < |text| ==> text[k] != '\'' && !IsOpen(text[k]) && text[k] != target
  }

  lemma {:induction false} PlainItemsOk(text: string, target: char)
    requires Harmless(text, target)
    ensures ItemsOk(PlainItems(text), target) && Render(PlainItems(text)) == text
  {
    if text != "" {
      assert PlainItems(text)[1..] == PlainItems(text[1..]);
      PlainItemsOk(text[1..], target);
    }
  }

  lemma {:induction false} PrintIsItems(v: Val, target: char)
    requires AllPlain(v) && target in {']', '}'}
    ensures ItemsOk(ItemsOf(v), target) && Render(ItemsOf(v)) == Print(v)
    decreases v, 0
  {
    match v
    case Null =>
    case Leaf(text) => PlainItemsOk(text, target);
    case ListVal(elems) =>
      ElemsAreItems(elems, ']');
      OneNested('[', ElemItems(elems), target);
    case StructVal(fields) =>
      FieldsAreItems(fields, '}');
      OneNested('{', FieldItems(fields), target);
  }

  lemma {:induction false} OneNested(open: char, items: seq<Item>, target: char)
    requires IsOpen(open) && ItemsOk(items, Closer(open))
    ensures ItemsOk([Nested(open, items)], target)
    ensures Render([Nested(open, items)]) == [open] + Render(items) + [Closer(open)]
  {
    var x := Nested(open, items);
    assert [x][1..] == [];
    assert Render([x]) == RenderItem(x) + "";
  }

  lemma {:induction false} ElemsAreItems(vs: seq<Val>, target: char)
    requires (forall k :: 0 <= k < |vs| ==> AllPlain(vs[k])) && target in {']', '}'}
    ensures ItemsOk(ElemItems(vs), target) && Render(ElemItems(vs)) == PrintElems(vs)
    decreases vs, 1
  {
    if vs != [] {
      PrintIsItems(vs[0], target);
      if |vs| == 1 {
        assert ItemsOf(vs[0]) + [] == ItemsOf(vs[0]);
      } else {
        ElemsAreItems(vs[1..], target);
        assert PlainItems(",") == [Plain(',')] by { assert ","[1..] == ""; }
        PlainItemsOk(",", target);
        RenderConcat([Plain(',')], ElemItems(vs[1..]), target);
        RenderConcat(ItemsOf(vs[0]), [Plain(',')] + ElemItems(vs[1..]), target);
      }
    }
  }

  lemma {:induction false} FieldsAreItems(fs: seq<NamedVal>, target: char)
    requires (forall k :: 0 <= k < |fs| ==> IsPlain(fs[k].name) && AllPlain(fs[k].val)) && target in {']', '}'}
    ensures ItemsOk(FieldItems(fs), target) && Render(FieldItems(fs)) == PrintFields(fs)
    decreases fs, 1
  {
    if fs != [] {
      var head, value := PlainItems(fs[0].name + ": "), ItemsOf(fs[0].val);
      PlainItemsOk(fs[0].name + ": ", target);
      PrintIsItems(fs[0].val, target);
      RenderConcat(head, value, target);
      if |fs| == 1 {
        assert head + value + [] == head + value;
      } else {
        FieldsAreItems(fs[1..], target);
        PlainItemsOk(", ", target);
        RenderConcat(PlainItems(", "), FieldItems(fs[1..]), target);
        RenderConcat(head + value, PlainItems(", ") + FieldItems(fs[1..]), target);
      }
    }
  }

  /** The brackets of a printed list or struct match. */
  lemma {:induction false} PrintCloses(s: string, i: nat, v: Val)
    requires AllPlain(v) && (v.ListVal? || v.StructVal?) && Holds(s, i, Print(v))
    ensures |Print(v)| >= 2 && s[i] == (if v.ListVal? then '[' else '{')
    ensures Close(s, i + 1, Closer(s[i])) == Some(i + |Print(v)| - 1)
  {
    if v.ListVal? {
      Bracketed(s, i, '[', PrintElems(v.elems), ']');
      ElemsAreItems(v.elems, ']');
      CloseFinds(s, i + 1, ElemItems(v.elems), ']');
    } else {
      Bracketed(s, i, '{', PrintFields(v.fields), '}');
      FieldsAreItems(v.fields, '}');
      CloseFinds(s, i + 1, FieldItems(v.fields), '}');
    }
  }

  // ----- splitting a printed list -----

  lemma {:induction false} NoSpaceAt(s: string, i: nat)
    requires i < |s| ==> !IsSpace(s[i])
    ensures SkipSpace(s, i) == i
  {
  }

  lemma {:induction false} ScanPlain(s: string, i: nat, text: string, start: nat, atStart: bool, seen: bool)
    requires Holds(s, i, text) && IsPlain(text) && start <= i
    ensures ScanList(s, i, start, atStart, seen) == ScanList(s, i + |text|, start, false, seen)
    decreases |text|
  {
    HoldsAt(s, i, text, 0);
    assert text == text[..1] + text[1..];
    HoldsSplit(s, i, text[..1], text[1..]);
    if |text| > 1 {
      assert forall k :: 0 <= k < |text| - 1 ==> text[1..][k] == text[k + 1];
      ScanPlain(s, i + 1, text[1..], start, false, seen);
    }
  }

  /** Scanning passes over a printed value. */
  lemma {:induction false} ScanValue(s: string, i: nat, v: Val, seen: bool)
    requires AllPlain(v) && Holds(s, i, Print(v))
    ensures ScanList(s, i, i, true, seen) == ScanList(s, i + |Print(v)|, i, v.Null?, seen)
  {
    match v
    case Null =>
    case Leaf(text) => ScanPlain(s, i, text, i, true, seen);
    case _ => PrintCloses(s, i, v);
  }

  /** Where the elements of a printed list stand. */
  function ElemRanges(i: nat, vs: seq<Val>): (r: seq<Range>)
    ensures |r| == |vs|
    decreases |vs|
  {
    if vs == [] then [] else [Range(i, i + |Print(vs[0])|)] + ElemRanges(i + |Print(vs[0])| + 1, vs[1..])
  }

  lemma {:induction false} FirstChar(v: Val)
    requires AllPlain(v) && !v.Null?
    ensures Print(v) != "" && !IsSpace(Print(v)[0]) && !IsQuote(Print(v)[0]) && Print(v)[0] != '}'
    ensures !IsSpace(Print(v)[|Print(v)| - 1])
  {
  }

  /** Printed elements, commas between them and a closing bracket make up the text from `i` on. */
  ghost predicate Elems(s: string, i: nat, vs: seq<Val>)
    requires vs != []
    decreases |vs|
  {
    var j := i + |Print(vs[0])|;
    && Holds(s, i, Print(vs[0])) && j < |s|
    && if |vs| == 1 then s[j] == ']' && j + 1 == |s| else s[j] == ',' && Elems(s, j + 1, vs[1..])
  }

  lemma {:induction false} ElemsStand(s: string, i: nat, vs: seq<Val>)
    requires vs != [] && Holds(s, i, PrintElems(vs) + "]") && i + |PrintElems(vs)| + 1 == |s|
    ensures Elems(s, i, vs)
    decreases |vs|
  {
    var text := Print(vs[0]);
    var j := i + |text|;
    if |vs| == 1 {
      assert PrintElems(vs) + "]" == text + "]";
      HoldsSplit(s, i, text, "]");
      HoldsAt(s, j, "]", 0);
    } else {
      var rest := PrintElems(vs[1..]) + "]";
      assert PrintElems(vs) + "]" == text + ("," + rest);
      HoldsSplit(s, i, text, "," + rest);
      HoldsSplit(s, j, ",", rest);
      HoldsAt(s, j, ",", 0);
      ElemsStand(s, j + 1, vs[1..]);
    }
  }

  lemma {:induction false} ElemsStart(s: string, i: nat, vs: seq<Val>)
    requires vs != [] && AllPlain(vs[0]) && Elems(s, i, vs)
    ensures SkipSpace(s, i) == i
  {
    if !vs[0].Null? {
      FirstChar(vs[0]);
      HoldsAt(s, i, Print(vs[0]), 0);
    }
    NoSpaceAt(s, i);
  }

  /** What the scan finds: the elements, but for a lone null. */
  ghost function Scanned(i: nat, vs: seq<Val>, seen: bool): Split<Range> {
    Split(if vs == [Null] && !seen then [] else ElemRanges(i, vs), true)
  }

  lemma {:induction false} ScannedOne(i: nat, v: Val, seen: bool)
    ensures Scanned(i, [v], seen) == Split(if v.Null? && !seen then [] else [Range(i, i + |Print(v)|)], true)
  {
    assert [v][0] == v && [v][1..] == [];
    assert ElemRanges(i, [v]) == [Range(i, i + |Print(v)|)];
  }

  lemma {:induction false} ScannedMore(i: nat, vs: seq<Val>, seen: bool)
    requires |vs| > 1
    ensures var j := i + |Print(vs[0])|; Scanned(i, vs, seen) == Prepend([Range(i, j)], Scanned(j + 1, vs[1..], true))
  {
  }

  /** The scan recovers the elements. */
  lemma {:induction false} ScanElems(s: string, i: nat, vs: seq<Val>, seen: bool)
    requires vs != [] && (forall k :: 0 <= k < |vs| ==> AllPlain(vs[k])) && Elems(s, i, vs)
    ensures ScanList(s, i, i, true, seen) == Scanned(i, vs, seen)
    decreases vs
  {
    FirstScanned(s, i, vs, seen);
    if |vs| > 1 {
      ScanElems(s, i + |Print(vs[0])| + 1, vs[1..], true);
      ScannedMore(i, vs, seen);
    }
  }

  lemma {:induction false} FirstScanned(s: string, i: nat, vs: seq<Val>, seen: bool)
    requires vs != [] && (forall k :: 0 <= k < |vs| ==> AllPlain(vs[k])) && Elems(s, i, vs)
    ensures var j := i + |Print(vs[0])|;
            ScanList(s, i, i, true, seen) ==
            if |vs| == 1 then Scanned(i, vs, seen) else Prepend([Range(i, j)], ScanList(s, j + 1, j + 1, true, true))
  {
    ScanValue(s, i, vs[0], seen);
    if |vs| == 1 {
      LastElem(s, i, vs[0], seen);
      ScannedOne(i, vs[0], seen);
      assert vs == [vs[0]];
    } else {
      var j := i + |Print(vs[0])|;
      ElemsStart(s, j + 1, vs[1..]);
      NextElem(s, i, j, vs[0].Null?, seen);
    }
  }

  lemma {:induction false} NextElem(s: string, start: nat, j: nat, atStart: bool, seen: bool)
    requires start <= j < |s| && s[j] == ',' && SkipSpace(s, j + 1) == j + 1
    ensures ScanList(s, j, start, atStart, seen) == Prepend([Range(start, j)], ScanList(s, j + 1, j + 1, true, true))
  {
  }

  lemma {:induction false} LastElem(s: string, i: nat, v: Val, seen: bool)
    requires AllPlain(v) && var j := i + |Print(v)|; j + 1 == |s| && s[j] == ']'
    ensures ScanList(s, i + |Print(v)|, i, v.Null?, seen) ==
            Split(if v.Null? && !seen then [] else [Range(i, i + |Print(v)|)], true)
  {
    if !v.Null? { FirstChar(v); }
    NoSpaceAt(s, |s|);
  }

  lemma {:induction false} ListStands(vs: seq<Val>)
    ensures var s := Print(ListVal(vs));
            |s| >= 2 && s[0] == '[' && (vs == [] ==> s == "[]") &&
            (vs != [] ==> Elems(s, 1, vs))
  {
    var s := Print(ListVal(vs));
    assert s == "[" + (PrintElems(vs) + "]");
    assert Holds(s, 1, PrintElems(vs) + "]");
    if vs != [] { ElemsStand(s, 1, vs); }
  }

  lemma {:induction false} SplitFrom(s: string)
    requires |s| >= 2 && s[0] == '[' && SkipSpace(s, 1) == 1
    ensures ListSplit(s) == ScanList(s, 1, 1, true, false)
  {
    NoSpaceAt(s, 0);
  }

  lemma {:induction false} SplitPrinted(vs: seq<Val>)
    requires forall k :: 0 <= k < |vs| ==> AllPlain(vs[k])
    ensures ListSplit(Print(ListVal(vs))) == Split(if vs == [Null] then [] else ElemRanges(1, vs), true)
  {
    var s := Print(ListVal(vs));
    ListStands(vs);
    if vs == [] {
      NoSpaceAt(s, 1);
      NoSpaceAt(s, 2);
      SplitFrom(s);
    } else {
      ElemsStart(s, 1, vs);
      SplitFrom(s);
      ScanElems(s, 1, vs, false);
    }
  }

  lemma {:induction false} NothingToTrim(s: string, i: nat, v: Val)
    requires AllPlain(v) && Holds(s, i, Print(v))
    ensures Trimmed(s, Range(i, i + |Print(v)|)) == Print(v)
    ensures TrimRight(s, i, i + |Print(v)|) == i + |Print(v)|
  {
    if !v.Null? {
      FirstChar(v);
      HoldsAt(s, i, Print(v), 0);
      HoldsAt(s, i, Print(v), |Print(v)| - 1);
    }
  }

  // ----- splitting a printed struct -----

  lemma {:induction false} StopPlain(s: string, i: nat, text: string, isKey: bool)
    requires Holds(s, i, text) && IsPlain(text)
    ensures FindStop(s, i, isKey) == FindStop(s, i + |text|, isKey)
    decreases |text|
  {
    HoldsAt(s, i, text, 0);
    assert text == text[..1] + text[1..];
    HoldsSplit(s, i, text[..1], text[1..]);
    if |text| > 1 {
      assert forall k :: 0 <= k < |text| - 1 ==> text[1..][k] == text[k + 1];
      StopPlain(s, i + 1, text[1..], isKey);
    }
  }

  lemma {:induction false} StopValue(s: string, i: nat, v: Val, isKey: bool)
    requires AllPlain(v) && Holds(s, i, Print(v))
    ensures FindStop(s, i, isKey) == FindStop(s, i + |Print(v)|, isKey)
  {
    match v
    case Null =>
    case Leaf(text) => StopPlain(s, i, text, isKey);
    case _ => PrintCloses(s, i, v);
  }

  lemma {:induction false} ColonAfter(s: string, i: nat, name: string)
    requires Holds(s, i, name + ":") && IsPlain(name)
    ensures FindColon(s, i) == Some(i + |name|)
    decreases |name|
  {
    HoldsAt(s, i, name + ":", 0);
    if |name| == 1 {
      HoldsAt(s, i, name + ":", 1);
    } else {
      assert name + ":" == name[..1] + (name[1..] + ":");
      HoldsSplit(s, i, name[..1], name[1..] + ":");
      assert forall k :: 0 <= k < |name| - 1 ==> name[1..][k] == name[k + 1];
      ColonAfter(s, i + 1, name[1..]);
    }
  }

  /** The parts of one printed field. */
  lemma {:induction false} FieldLayout(s: string, i: nat, f: NamedVal)
    requires Holds(s, i, FieldText(f))
    ensures |FieldText(f)| == |f.name| + 2 + |Print(f.val)|
    ensures Holds(s, i, f.name) && Holds(s, i, f.name + ":") && s[i + |f.name| + 1] == ' ' &&
            Holds(s, i + |f.name| + 2, Print(f.val))
  {
    HoldsSplit(s, i, f.name + ": ", Print(f.val));
    assert f.name + ": " == f.name + ":" + " ";
    HoldsSplit(s, i, f.name + ":", " ");
    HoldsSplit(s, i, f.name, ":");
    HoldsAt(s, i + |f.name| + 1, " ", 0);
  }

  lemma {:induction false} ValueFound(s: string, p: nat, v: nat, e: nat, val: Val)
    requires v == p + 1 && e == v + |Print(val)| && e < |s| && Stops(false, s[e])
    requires AllPlain(val) && s[p] == ' ' && Holds(s, v, Print(val))
    ensures SkipSpace(s, p) == v && FindStop(s, v, false) == Some(e) &&
            TrimQuotes(s[v..TrimRight(s, v, e)]) == Some(Print(val))
  {
    if !val.Null? {
      FirstChar(val);
      HoldsAt(s, v, Print(val), 0);
    }
    NoSpaceAt(s, v);
    StopValue(s, v, val, false);
    NothingToTrim(s, v, val);
  }

  /** One printed field is found with its name and its value's text. */
  lemma {:induction false} FieldFound(s: string, i: nat, f: NamedVal, names: seq<string>)
    requires IsPlain(f.name) && AllPlain(f.val) && f.name in names && Holds(s, i, FieldText(f))
    requires var e := i + |FieldText(f)|; e < |s| && Stops(false, s[e])
    ensures NextField(s, names, i) == Found(Field(f.name, Print(f.val)), i + |FieldText(f)|)
  {
    FieldLayout(s, i, f);
    NameFound(s, i, f.name);
    var j := i + |f.name|;
    var e := i + |FieldText(f)|;
    ValueFound(s, j + 1, j + 2, e, f.val);
    FieldIs(s, names, i, j, f.name, j + 2, e, Print(f.val));
  }

  lemma {:induction false} FieldIs(s: string, names: seq<string>, i: nat, j: nat, name: string, v: nat, e: nat,
                                   value: string)
    requires i < |s| && FindColon(s, i) == Some(j) && TrimQuotes(s[i..TrimRight(s, i, j)]) == Some(name) &&
             name in names
    requires SkipSpace(s, j + 1) == v && FindStop(s, v, false) == Some(e) &&
             TrimQuotes(s[v..TrimRight(s, v, e)]) == Some(value)
    ensures NextField(s, names, i) == Found(Field(name, value), e)
  {
  }

  lemma {:induction false} NameFound(s: string, i: nat, name: string)
    requires IsPlain(name) && Holds(s, i, name) && Holds(s, i, name + ":")
    ensures FindColon(s, i) == Some(i + |name|) && TrimQuotes(s[i..TrimRight(s, i, i + |name|)]) == Some(name)
  {
    ColonAfter(s, i, name);
    NothingToTrim(s, i, Leaf(name));
    FirstChar(Leaf(name));
  }

  function FieldTexts(fs: seq<NamedVal>): seq<Field> {
    if fs == [] then [] else [Field(fs[0].name, Print(fs[0].val))] + FieldTexts(fs[1..])
  }

  /** Printed fields, separators between them and a closing brace make up the text from `i` on. */
  ghost predicate Fields(s: string, i: nat, fs: seq<NamedVal>)
    requires fs != []
    decreases |fs|
  {
    var e := i + |FieldText(fs[0])|;
    && Holds(s, i, FieldText(fs[0])) && e < |s|
    && if |fs| == 1 then s[e] == '}' && e + 1 == |s|
       else s[e] == ',' && e + 2 < |s| && s[e + 1] == ' ' && Fields(s, e + 2, fs[1..])
  }

  lemma {:induction false} FieldsStand(s: string, i: nat, fs: seq<NamedVal>)
    requires fs != [] && Holds(s, i, PrintFields(fs) + "}") && i + |PrintFields(fs)| + 1 == |s|
    ensures Fields(s, i, fs)
    decreases |fs|
  {
    var text := FieldText(fs[0]);
    var e := i + |text|;
    if |fs| == 1 {
      assert PrintFields(fs) + "}" == text + "}";
      HoldsSplit(s, i, text, "}");
      HoldsAt(s, e, "}", 0);
    } else {
      var rest := PrintFields(fs[1..]) + "}";
      assert PrintFields(fs) + "}" == text + (", " + rest);
      HoldsSplit(s, i, text, ", " + rest);
      HoldsSplit(s, e, ", ", rest);
      HoldsAt(s, e, ", ", 0);
      HoldsAt(s, e, ", ", 1);
      FieldsStand(s, e + 2, fs[1..]);
    }
  }

  lemma {:induction false} FieldsStart(s: string, i: nat, fs: seq<NamedVal>)
    requires fs != [] && IsPlain(fs[0].name) && Fields(s, i, fs)
    ensures i < |s| && !IsSpace(s[i]) && s[i] != '}'
  {
    HoldsAt(s, i, FieldText(fs[0]), 0);
  }

  lemma {:induction false} NextStart(s: string, e: nat, fs: seq<NamedVal>)
    requires fs != [] && IsPlain(fs[0].name) && e + 2 < |s| && s[e + 1] == ' ' && Fields(s, e + 2, fs)
    ensures SkipSpace(s, e + 1) == e + 2
  {
    FieldsStart(s, e + 2, fs);
    NoSpaceAt(s, e + 2);
  }

  /** What the scanner sees of one printed field behind white space. */
  lemma {:induction false} FieldSeen(s: string, start: nat, i: nat, f: NamedVal, names: seq<string>)
    returns (slot: StructGrammar.Slot)
    requires IsPlain(f.name) && AllPlain(f.val) && f.name in names && Holds(s, i, FieldText(f))
    requires var e := i + |FieldText(f)|; e < |s| && Stops(false, s[e])
    requires SkipSpace(s, start) == i
    ensures StructGrammar.Seen(s, names, slot) && slot.start == start && slot.end == i + |FieldText(f)|
    ensures StructGrammar.FieldOf(slot) == Field(f.name, Print(f.val))
  {
    FieldFound(s, i, f, names);
    var name, value := StructGrammar.AsIs(f.name), StructGrammar.AsIs(Print(f.val));
    slot := StructGrammar.Slot(start, i, i, i, i + |FieldText(f)|, name, value, []);
  }

  lemma {:induction false} FirstSeen(s: string, start: nat, i: nat, fs: seq<NamedVal>, names: seq<string>)
    returns (slot: StructGrammar.Slot)
    requires fs != [] && forall k :: 0 <= k < |fs| ==> IsPlain(fs[k].name) && AllPlain(fs[k].val) && fs[k].name in names
    requires Fields(s, i, fs) && SkipSpace(s, start) == i
    ensures StructGrammar.Seen(s, names, slot) && slot.start == start && slot.end < |s|
    ensures StructGrammar.FieldOf(slot) == Field(fs[0].name, Print(fs[0].val))
    ensures |fs| == 1 ==> s[slot.end] == '}' && slot.end + 1 == |s|
    ensures |fs| > 1 ==>
              s[slot.end] == ',' && Fields(s, slot.end + 2, fs[1..]) && SkipSpace(s, slot.end + 1) == slot.end + 2
  {
    slot := FieldSeen(s, start, i, fs[0], names);
    if |fs| > 1 { NextStart(s, slot.end, fs[1..]); }
  }

  lemma {:induction false} FieldsSeen(s: string, start: nat, i: nat, fs: seq<NamedVal>, names: seq<string>)
    returns (slots: seq<StructGrammar.Slot>)
    requires fs != [] && forall k :: 0 <= k < |fs| ==> IsPlain(fs[k].name) && AllPlain(fs[k].val) && fs[k].name in names
    requires Fields(s, i, fs) && SkipSpace(s, start) == i
    ensures StructGrammar.SeenAs(s, names, slots, start, FieldTexts(fs))
    decreases |fs|
  {
    var slot := FirstSeen(s, start, i, fs, names);
    FieldTextsMore(fs);
    if |fs| == 1 {
      StructGrammar.SeenOne(s, names, slot);
      return [slot];
    }
    var rest := FieldsSeen(s, slot.end + 1, slot.end + 2, fs[1..], names);
    StructGrammar.SeenCons(s, names, slot, rest, FieldTexts(fs[1..]));
    slots := [slot] + rest;
  }

  lemma {:induction false} FieldTextsMore(fs: seq<NamedVal>)
    requires fs != []
    ensures FieldTexts(fs) == [Field(fs[0].name, Print(fs[0].val))] + FieldTexts(fs[1..])
    ensures |fs| == 1 ==> FieldTexts(fs) == [Field(fs[0].name, Print(fs[0].val))]
  {
  }

  /** The scan recovers the fields. */
  lemma {:induction false} ScanFields(s: string, i: nat, fs: seq<NamedVal>, names: seq<string>)
    requires fs != [] && forall k :: 0 <= k < |fs| ==> IsPlain(fs[k].name) && AllPlain(fs[k].val) && fs[k].name in names
    requires Fields(s, i, fs)
    ensures ScanStruct(s, names, i) == (FieldTexts(fs), Good)
  {
    FieldsStart(s, i, fs);
    NoSpaceAt(s, i);
    var slots := FieldsSeen(s, i, i, fs, names);
    StructGrammar.ScanSeen(s, names, slots);
    assert s[|s|..] == "";
  }

  lemma {:induction false} StructStands(fs: seq<NamedVal>)
    ensures var s := Print(StructVal(fs));
            |s| >= 2 && s[0] == '{' && (fs == [] ==> s == "{}") &&
            (fs != [] ==> Fields(s, 1, fs))
  {
    var s := Print(StructVal(fs));
    assert s == "{" + (PrintFields(fs) + "}");
    assert Holds(s, 1, PrintFields(fs) + "}");
    if fs != [] { FieldsStand(s, 1, fs); }
  }

  lemma {:induction false} BracesFrom(s: string)
    requires |s| >= 2 && s[0] == '{' && !IsSpace(s[1])
    ensures BraceStart(s) == if s[1] == '}' then None else Some(1)
    ensures s == "{}" ==> EmptyBraces(s)
  {
    NoSpaceAt(s, 0);
    NoSpaceAt(s, 1);
    if s == "{}" { NoSpaceAt(s, 2); }
  }

  lemma {:induction false} SplitPrintedStruct(fs: seq<NamedVal>, names: seq<string>)
    requires forall k :: 0 <= k < |fs| ==> IsPlain(fs[k].name) && AllPlain(fs[k].val) && fs[k].name in names
    ensures StructSplit(Print(StructVal(fs)), names) == (FieldTexts(fs), Good)
  {
    var s := Print(StructVal(fs));
    StructStands(fs);
    if fs != [] {
      FieldsStart(s, 1, fs);
      ScanFields(s, 1, fs, names);
    }
    BracesFrom(s);
  }

  // ----- the round trip -----

  /** The value that comes back: a lone null in a list is lost. */
  function Restored(v: Val): Val {
    match v
    case Null => Null
    case Leaf(_) => v
    case ListVal(elems) =>
      if elems == [Null] then ListVal([]) else ListVal(seq(|elems|, k requires 0 <= k < |elems| => Restored(elems[k])))
    case StructVal(fields) =>
      StructVal(seq(|fields|, k requires 0 <= k < |fields| => NamedVal(fields[k].name, Restored(fields[k].val))))
  }

  lemma {:induction false} RestoredIff(v: Val)
    ensures Restored(v) == v <==> NoLoneNull(v)
  {
    match v
    case Null =>
    case Leaf(_) =>
    case ListVal(elems) =>
      forall k | 0 <= k < |elems| ensures Restored(elems[k]) == elems[k] <==> NoLoneNull(elems[k]) {
        RestoredIff(elems[k]);
      }
      if elems != [Null] {
        var rs := seq(|elems|, k requires 0 <= k < |elems| => Restored(elems[k]));
        assert rs == elems <==> forall k :: 0 <= k < |elems| ==> rs[k] == elems[k];
      }
    case StructVal(fields) =>
      forall k | 0 <= k < |fields| ensures Restored(fields[k].val) == fields[k].val <==> NoLoneNull(fields[k].val) {
        RestoredIff(fields[k].val);
      }
      var rs := seq(|fields|, k requires 0 <= k < |fields| => NamedVal(fields[k].name, Restored(fields[k].val)));
      assert rs == fields <==> forall k :: 0 <= k < |fields| ==> rs[k] == fields[k];
  }

  lemma {:induction false} PrintedNotNull(v: Val)
    requires v.ListVal? || v.StructVal?
    ensures !IsNullText(Print(v))
  {
    NoSpaceAt(Print(v), 0);
  }

  function RestoredAll(vs: seq<Val>): (r: seq<Val>)
    ensures |r| == |vs|
  {
    seq(|vs|, k requires 0 <= k < |vs| => Restored(vs[k]))
  }

  ghost predicate Inside(s: string, parts: seq<Range>) {
    forall k :: 0 <= k < |parts| ==> parts[k].start <= parts[k].end <= |s|
  }

  lemma {:induction false} CastElemsCons(s: string, parts: seq<Range>, elem: Shape, v: Val, vs: seq<Val>)
    requires parts != [] && Inside(s, parts) && Cast(Trimmed(s, parts[0]), elem) == Some(v)
    requires CastElems(s, parts[1..], elem) == Some(ListVal(vs))
    ensures CastElems(s, parts, elem) == Some(ListVal([v] + vs))
  {
  }

  lemma {:induction false} CastFieldsCons(fields: seq<Field>, names: seq<string>, shapes: seq<Shape>, text: string,
                                          v: Val, fs: seq<NamedVal>)
    requires |names| == |shapes| > 0 && TextFor(fields, names[0]) == Some(text) && Cast(text, shapes[0]) == Some(v)
    requires CastFieldsOf(fields, names[1..], shapes[1..]) == Some(StructVal(fs))
    ensures CastFieldsOf(fields, names, shapes) == Some(StructVal([NamedVal(names[0], v)] + fs))
  {
  }

  lemma {:induction false} CastFieldsFrom(fields: seq<Field>, names: seq<string>, shapes: seq<Shape>, k: nat,
                                          text: string, v: Val, fs: seq<NamedVal>)
    requires k < |names| == |shapes| && TextFor(fields, names[k]) == Some(text) && Cast(text, shapes[k]) == Some(v)
    requires CastFieldsOf(fields, names[k + 1..], shapes[k + 1..]) == Some(StructVal(fs))
    ensures CastFieldsOf(fields, names[k..], shapes[k..]) == Some(StructVal([NamedVal(names[k], v)] + fs))
  {
    assert names[k..][1..] == names[k + 1..] && shapes[k..][1..] == shapes[k + 1..];
    CastFieldsCons(fields, names[k..], shapes[k..], text, v, fs);
  }

  lemma {:induction false} RestoredFrom(fs: seq<NamedVal>, k: nat)
    requires k < |fs|
    ensures RestoredFields(fs[k..]) == [NamedVal(fs[k].name, Restored(fs[k].val))] + RestoredFields(fs[k + 1..])
  {
  }

  /** Every element's range holds its text. */
  lemma {:induction false} RangeAt(s: string, i: nat, vs: seq<Val>, k: nat)
    requires vs != [] && Elems(s, i, vs) && k < |vs| && forall n :: 0 <= n < |vs| ==> AllPlain(vs[n])
    ensures var r := ElemRanges(i, vs)[k]; r.start <= r.end <= |s| && Trimmed(s, r) == Print(vs[k])
    decreases k
  {
    if k == 0 {
      NothingToTrim(s, i, vs[0]);
    } else {
      var j := i + |Print(vs[0])| + 1;
      RangeAt(s, j, vs[1..], k - 1);
      assert ElemRanges(i, vs)[k] == ElemRanges(j, vs[1..])[k - 1];
    }
  }

  lemma {:induction false} CastParts(s: string, parts: seq<Range>, elem: Shape, vs: seq<Val>)
    requires |parts| == |vs| && Inside(s, parts) &&
             forall k :: 0 <= k < |vs| ==> Cast(Trimmed(s, parts[k]), elem) == Some(vs[k])
    ensures CastElems(s, parts, elem) == Some(ListVal(vs))
    decreases |parts|
  {
    if parts != [] {
      forall k | 0 <= k < |parts[1..]| ensures Cast(Trimmed(s, parts[1..][k]), elem) == Some(vs[1..][k]) {
        assert parts[1..][k] == parts[k + 1] && vs[1..][k] == vs[k + 1];
      }
      CastParts(s, parts[1..], elem, vs[1..]);
      CastElemsCons(s, parts, elem, vs[0], vs[1..]);
      assert [vs[0]] + vs[1..] == vs;
    }
  }

  lemma {:induction false} TextForField(fs: seq<NamedVal>, k: nat)
    requires k < |fs| && forall a, b :: 0 <= a < b < |fs| ==> fs[a].name != fs[b].name
    ensures TextFor(FieldTexts(fs), fs[k].name) == Some(Print(fs[k].val))
  {
    assert FieldTexts(fs)[1..] == FieldTexts(fs[1..]);
    if k > 0 {
      TextForField(fs[1..], k - 1);
    } else {
      NoTextFor(fs[1..], fs[0].name);
    }
  }

  lemma {:induction false} NoTextFor(fs: seq<NamedVal>, name: string)
    requires forall k :: 0 <= k < |fs| ==> fs[k].name != name
    ensures TextFor(FieldTexts(fs), name) == None
  {
    if fs != [] {
      assert FieldTexts(fs)[1..] == FieldTexts(fs[1..]);
      NoTextFor(fs[1..], name);
    }
  }

  function RestoredFields(fs: seq<NamedVal>): (r: seq<NamedVal>)
    ensures |r| == |fs|
  {
    seq(|fs|, k requires 0 <= k < |fs| => NamedVal(fs[k].name, Restored(fs[k].val)))
  }

  /** The fields from number `k` on. */
  lemma {:induction false} CastTexts(fs: seq<NamedVal>, names: seq<string>, shapes: seq<Shape>, k: nat)
    requires HasShape(StructVal(fs), StructShape(names, shapes)) && k <= |fs|
    ensures CastFieldsOf(FieldTexts(fs), names[k..], shapes[k..]) == Some(StructVal(RestoredFields(fs[k..])))
    decreases fs, |fs| - k
  {
    if k < |fs| {
      TextForField(fs, k);
      CastPrint(fs[k].val, shapes[k]);
      CastTexts(fs, names, shapes, k + 1);
      CastFieldsFrom(FieldTexts(fs), names, shapes, k, Print(fs[k].val), Restored(fs[k].val),
                     RestoredFields(fs[k + 1..]));
      RestoredFrom(fs, k);
    }
  }

  lemma {:induction false} CastPrintList(v: Val, shape: Shape)
    requires v.ListVal? && HasShape(v, shape)
    ensures Cast(Print(v), shape) == Some(Restored(v))
    decreases v.elems, 2
  {
    var s, vs := Print(v), v.elems;
    PrintedNotNull(v);
    forall k | 0 <= k < |vs| ensures AllPlain(vs[k]) { ShapedIsPlain(vs[k], shape.elem); }
    SplitPrinted(vs);
    ListStands(vs);
    if vs == [Null] {
      CastParts(s, [], shape.elem, []);
    } else {
      var parts := ElemRanges(1, vs);
      forall k | 0 <= k < |vs|
        ensures parts[k].start <= parts[k].end <= |s| &&
                Cast(Trimmed(s, parts[k]), shape.elem) == Some(RestoredAll(vs)[k])
      {
        RangeAt(s, 1, vs, k);
        CastPrint(vs[k], shape.elem);
      }
      CastParts(s, parts, shape.elem, RestoredAll(vs));
    }
  }

  lemma {:induction false} CastPrintStruct(v: Val, shape: Shape)
    requires v.StructVal? && HasShape(v, shape)
    ensures Cast(Print(v), shape) == Some(Restored(v))
    decreases v.fields, |v.fields| + 1
  {
    PrintedNotNull(v);
    forall k | 0 <= k < |v.fields| ensures AllPlain(v.fields[k].val) && v.fields[k].name in shape.names {
      ShapedIsPlain(v.fields[k].val, shape.shapes[k]);
      assert shape.names[k] in shape.names;
    }
    SplitPrintedStruct(v.fields, shape.names);
    CastTexts(v.fields, shape.names, shape.shapes, 0);
    assert shape.names[0..] == shape.names && shape.shapes[0..] == shape.shapes && v.fields[0..] == v.fields;
  }

  /** Casting what was printed gives the value back, up to lone nulls. */
  lemma {:induction false} CastPrint(v: Val, shape: Shape)
    requires HasShape(v, shape)
    ensures Cast(Print(v), shape) == Some(Restored(v))
    decreases v
  {
    match v
    case Null => NoSpaceAt("", 0);
    case Leaf(_) =>
    case ListVal(_) => CastPrintList(v, shape);
    case StructVal(_) => CastPrintStruct(v, shape);
  }

  /** Printing and casting is a round trip exactly for values without a one-element list of null. */
  lemma {:induction false} RoundTripIff(v: Val, shape: Shape)
    requires HasShape(v, shape)
    ensures Cast(Print(v), shape) == Some(v) <==> NoLoneNull(v)
  {
    CastPrint(v, shape);
    RestoredIff(v);
  }
}
