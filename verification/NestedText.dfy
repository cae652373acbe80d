/** The scanner for nested literals: matching brackets and splitting lists, maps and structs. */
module NestedText {

  datatype Option<T> = None | Some(value: T)

  predicate IsSpace(c: char) {
    c == ' ' || c == '\t' || c == '\n' || c == '\r' || c as int == 11 || c as int == 12
  }

  // ----- what the scanner looks for -----

  /** The first position from `i` on that is not white space. */
  function SkipSpace(s: string, i: nat): (j: nat)
    ensures i <= j && (i <= |s| ==> j <= |s|)
    decreases |s| - i
  {
    if i < |s| && IsSpace(s[i]) then SkipSpace(s, i + 1) else i
  }

  ghost predicate AllSpace(text: string) {
    forall k :: 0 <= k < |text| ==> IsSpace(text[k])
  }

  /** White space is passed, and nothing else. */
  lemma {:induction false} SkipsTo(s: string, i: nat)
    requires i <= |s|
    ensures AllSpace(s[i..SkipSpace(s, i)]) && (SkipSpace(s, i) < |s| ==> !IsSpace(s[SkipSpace(s, i)]))
    decreases |s| - i
  {
    if i < |s| && IsSpace(s[i]) {
      SkipsTo(s, i + 1);
      assert s[i..SkipSpace(s, i)] == [s[i]] + s[i + 1..SkipSpace(s, i)];
    }
  }

  lemma {:induction false} RestIsSpace(s: string, i: nat)
    requires i <= |s|
    ensures SkipSpace(s, i) == |s| <==> AllSpace(s[i..])
  {
    SkipsTo(s, i);
    var j := SkipSpace(s, i);
    if j == |s| { assert s[i..j] == s[i..]; } else { assert s[i..][j - i] == s[j]; }
  }

  function TrimRight(s: string, i: nat, j: nat): (r: nat)
    requires i <= j <= |s|
    ensures i <= r <= j
  {
    if i < j && IsSpace(s[j - 1]) then TrimRight(s, i, j - 1) else j
  }

  /** The closing quote, or the end of the text. */
  function CloseQuote(s: string, i: nat, q: char): (j: nat)
    requires i <= |s|
    ensures i <= j <= |s| && (j < |s| ==> s[j] == q)
    decreases |s| - i
  {
    if i < |s| && s[i] != q then CloseQuote(s, i + 1, q) else i
  }

  predicate IsOpen(c: char) {
    c == '{' || c == '['
  }

  function Closer(open: char): char {
    if open == '{' then '}' else ']'
  }

  /** The close that belongs to an open before `i`. */
  function Close(s: string, i: nat, target: char): (r: Option<nat>)
    requires i <= |s|
    ensures r.Some? ==> i <= r.value < |s| && s[r.value] == target
    decreases |s| - i
  {
    if i == |s| then None
    else if s[i] == '\'' then
      var q := CloseQuote(s, i + 1, '\'');
      if q == |s| then None else Close(s, q + 1, target)
    else if IsOpen(s[i]) then
      match Close(s, i + 1, Closer(s[i]))
      case None => None
      case Some(j) => Close(s, j + 1, target)
    else if s[i] == target then Some(i)
    else Close(s, i + 1, target)
  }

  // ----- what "belongs" means: a tree of items -----

  datatype Item = Plain(c: char) | Quoted(text: string) | Nested(open: char, items: seq<Item>)

  function RenderItem(x: Item): string {
    match x
    case Plain(c) => [c]
    case Quoted(text) => "'" + text + "'"
    case Nested(open, items) => [open] + Render(items) + [Closer(open)]
  }

  function Render(xs: seq<Item>): string {
    if xs == [] then "" else RenderItem(xs[0]) + Render(xs[1..])
  }

  /** Inside a bracket closed by `target`, plain text has no open bracket, quote or `target`. */
  ghost predicate ItemOk(x: Item, target: char) {
    match x
    case Plain(c) => c != '\'' && !IsOpen(c) && c != target
    case Quoted(text) => '\'' !in text
    case Nested(open, items) => IsOpen(open) && ItemsOk(items, Closer(open))
  }

  ghost predicate ItemsOk(xs: seq<Item>, target: char) {
    xs == [] || (ItemOk(xs[0], target) && ItemsOk(xs[1..], target))
  }

  /** `text` stands at position `i`. */
  ghost predicate Holds(s: string, i: nat, text: string) {
    i + |text| <= |s| && forall k :: 0 <= k < |text| ==> s[i + k] == text[k]
  }

  lemma {:induction false} HoldsSplit(s: string, i: nat, a: string, b: string)
    ensures Holds(s, i, a + b) <==> Holds(s, i, a) && Holds(s, i + |a|, b)
  {
    if i + |a + b| <= |s| {
      assert s[i..i + |a + b|] == s[i..i + |a|] + s[i + |a|..i + |a| + |b|];
      if Holds(s, i, a + b) {
        assert a == (a + b)[..|a|] && b == (a + b)[|a|..];
        assert s[i..i + |a|] == s[i..i + |a + b|][..|a|] && s[i + |a|..i + |a| + |b|] == s[i..i + |a + b|][|a|..];
      }
    }
  }

  lemma {:induction false} HoldsAt(s: string, i: nat, text: string, k: nat)
    requires Holds(s, i, text) && k < |text|
    ensures s[i + k] == text[k]
  {
    assert s[i..i + |text|][k] == s[i + k];
  }

  lemma {:induction false} CloseQuoteFinds(s: string, i: nat, text: string, q: char)
    requires Holds(s, i, text) && q !in text && i + |text| < |s| && s[i + |text|] == q
    ensures CloseQuote(s, i, q) == i + |text|
    decreases |text|
  {
    if text != "" {
      HoldsAt(s, i, text, 0);
      HoldsSplit(s, i, text[..1], text[1..]);
      assert text == text[..1] + text[1..];
      CloseQuoteFinds(s, i + 1, text[1..], q);
    }
  }

  lemma {:induction false} PassQuoted(s: string, i: nat, text: string, target: char)
    requires Holds(s, i, "'" + text + "'") && '\'' !in text
    ensures i + |text| + 2 <= |s| && Close(s, i, target) == Close(s, i + |text| + 2, target)
  {
    HoldsAt(s, i, "'" + text + "'", 0);
    HoldsSplit(s, i, "'" + text, "'");
    HoldsSplit(s, i, "'", text);
    HoldsAt(s, i + 1 + |text|, "'", 0);
    CloseQuoteFinds(s, i + 1, text, '\'');
  }

  /** The parts of a bracketed text. */
  lemma {:induction false} Bracketed(s: string, i: nat, open: char, text: string, close: char)
    requires Holds(s, i, [open] + text + [close])
    ensures i + |text| + 2 <= |s| && s[i] == open && Holds(s, i + 1, text) && s[i + 1 + |text|] == close
  {
    HoldsSplit(s, i, [open] + text, [close]);
    HoldsSplit(s, i, [open], text);
    HoldsAt(s, i, [open], 0);
    HoldsAt(s, i + 1 + |text|, [close], 0);
  }

  /** The search passes over a well-formed item as a whole. */
  lemma {:induction false} ClosePasses(s: string, i: nat, x: Item, target: char)
    requires Holds(s, i, RenderItem(x)) && ItemOk(x, target)
    ensures i + |RenderItem(x)| <= |s| && Close(s, i, target) == Close(s, i + |RenderItem(x)|, target)
    decreases x
  {
    match x
    case Plain(c) => HoldsAt(s, i, [c], 0);
    case Quoted(text) => PassQuoted(s, i, text, target);
    case Nested(open, items) =>
      Bracketed(s, i, open, Render(items), Closer(open));
      CloseFinds(s, i + 1, items, Closer(open));
  }

  lemma {:induction false} ClosePassesAll(s: string, i: nat, xs: seq<Item>, target: char)
    requires Holds(s, i, Render(xs)) && ItemsOk(xs, target)
    ensures i + |Render(xs)| <= |s| && Close(s, i, target) == Close(s, i + |Render(xs)|, target)
    decreases xs, 0
  {
    if xs != [] {
      HoldsSplit(s, i, RenderItem(xs[0]), Render(xs[1..]));
      ClosePasses(s, i, xs[0], target);
      ClosePassesAll(s, i + |RenderItem(xs[0])|, xs[1..], target);
    }
  }

  /** It stops at the first close after well-formed items. */
  lemma {:induction false} CloseFinds(s: string, i: nat, xs: seq<Item>, target: char)
    requires Holds(s, i, Render(xs)) && ItemsOk(xs, target) && target in {']', '}'}
    requires i + |Render(xs)| < |s| && s[i + |Render(xs)|] == target
    ensures Close(s, i, target) == Some(i + |Render(xs)|)
    decreases xs, 1
  {
    ClosePassesAll(s, i, xs, target);
  }

  lemma {:induction false} RenderCons(x: Item, rest: seq<Item>, target: char)
    requires ItemOk(x, target) && ItemsOk(rest, target)
    ensures ItemsOk([x] + rest, target) && Render([x] + rest) == RenderItem(x) + Render(rest)
  {
    assert ([x] + rest)[1..] == rest;
  }

  /** And only there: what lies before the position it returns is made of well-formed items. */
  lemma {:induction false} CloseIsMatch(s: string, i: nat, target: char) returns (xs: seq<Item>)
    requires i <= |s| && Close(s, i, target).Some? && target in {']', '}'}
    ensures ItemsOk(xs, target) && s[i..Close(s, i, target).value] == Render(xs)
    decreases |s| - i
  {
    if s[i] == target { return []; }
    var x, k := FirstItem(s, i, target);
    var rest := CloseIsMatch(s, k, target);
    RenderCons(x, rest, target);
    xs := [x] + rest;
    var j := Close(s, i, target).value;
    assert s[i..j] == s[i..k] + s[k..j];
  }

  lemma {:induction false} SliceEnds(s: string, i: nat, j: nat)
    requires i < j < |s|
    ensures s[i..j + 1] == [s[i]] + s[i + 1..j] + [s[j]]
  {
  }

  lemma {:induction false} FirstItem(s: string, i: nat, target: char) returns (x: Item, k: nat)
    requires i <= |s| && Close(s, i, target).Some? && target in {']', '}'} && s[i] != target
    ensures i < k <= |s| && ItemOk(x, target) && s[i..k] == RenderItem(x) && Close(s, k, target) == Close(s, i, target)
    decreases |s| - i, 0
  {
    if s[i] == '\'' {
      x, k := FirstQuoted(s, i);
    } else if IsOpen(s[i]) {
      var j := Close(s, i + 1, Closer(s[i])).value;
      var inner := CloseIsMatch(s, i + 1, Closer(s[i]));
      x, k := Nested(s[i], inner), j + 1;
      SliceEnds(s, i, j);
    } else {
      x, k := Plain(s[i]), i + 1;
    }
  }

  lemma {:induction false} FirstQuoted(s: string, i: nat) returns (x: Item, k: nat)
    requires i < |s| && s[i] == '\'' && CloseQuote(s, i + 1, '\'') < |s|
    ensures k == CloseQuote(s, i + 1, '\'') + 1 && x.Quoted? && '\'' !in x.text && s[i..k] == RenderItem(x)
  {
    var q := CloseQuote(s, i + 1, '\'');
    NoQuoteBefore(s, i + 1, '\'');
    x, k := Quoted(s[i + 1..q]), q + 1;
    SliceEnds(s, i, q);
  }

  lemma {:induction false} NoQuoteBefore(s: string, i: nat, q: char)
    requires i <= |s|
    ensures q !in s[i..CloseQuote(s, i, q)]
    decreases |s| - i
  {
    var j := CloseQuote(s, i, q);
    if i < |s| && s[i] != q {
      NoQuoteBefore(s, i + 1, q);
      assert s[i..j] == [s[i]] + s[i + 1..j];
    }
  }

  // ----- the scanner -----

  const MODULUS := 0x1_0000_0000_0000_0000

  method SkipToCloseQuotes(s: string, at: nat) returns (ok: bool, at': nat)
    requires at < |s|
    ensures at' == CloseQuote(s, at + 1, s[at]) && (ok <==> at' < |s|)
  {
    var ch := s[at];
    at' := at + 1;
    while at' != |s|
      invariant at < at' <= |s| && CloseQuote(s, at', ch) == CloseQuote(s, at + 1, ch)
    {
      if s[at'] == ch { return true, at'; }
      at' := at' + 1;
    }
    ok := false;
  }

  /** Finds the matching close. The level goes down by one for `]` and stays for `}`, in 64 bits. */
  method SkipToClose(s: string, at: nat, lvl: nat, target: char) returns (ok: bool, at': nat, lvl': nat)
    requires at < |s| && lvl < MODULUS && target in {']', '}'}
    ensures lvl' < MODULUS
    ensures ok <==> Close(s, at + 1, target).Some?
    ensures ok ==> Close(s, at + 1, target) == Some(at')
    ensures ok ==> lvl' == if target == ']' then (lvl + MODULUS - 1) % MODULUS else lvl
    ensures !ok ==> at' == |s|
    decreases |s| - at
  {
    at', lvl' := at + 1, lvl;
    while at' != |s|
      invariant at < at' <= |s| && lvl' == lvl && Close(s, at', target) == Close(s, at + 1, target)
      decreases |s| - at'
    {
      if s[at'] == '\'' {
        ok, at' := SkipToCloseQuotes(s, at');
        if !ok { return false, at', lvl'; }
      } else if s[at'] == '{' {
        ok, at', lvl' := SkipToClose(s, at', lvl', '}');
        if !ok { return false, at', lvl'; }
      } else if s[at'] == '[' {
        ok, at', lvl' := SkipToClose(s, at', lvl', ']');
        if !ok { return false, at', lvl'; }
        lvl' := (lvl' + 1) % MODULUS;
      } else if s[at'] == target {
        if target == ']' { lvl' := (lvl' + MODULUS - 1) % MODULUS; }
        return true, at', lvl';
      }
      at' := at' + 1;
    }
    ok := false;
  }
}
