/**
 JSON text as RFC 8259 writes it (sections 4, 5 and 7), and the fact that the bracket scanner takes
 exactly a printed array or object out of any surrounding text.
 */
module Json {
  import opened Types
  import opened Scanner

  datatype Json =
    | JNull
    | JBool(b: bool)
    | JNum(text: string)
    | JStr(s: string)
    | JArr(items: seq<Json>)
    | JObj(fields: seq<Field>)

  datatype Field = Field(name: string, value: Json)

  predicate IsNumberChar(c: char) { '0' <= c <= '9' || c in ['-', '+', '.', 'e', 'E'] }

  predicate IsSpace(c: char) { c in [' ', '\t', '\n', '\r'] }

  predicate All(s: string, p: char -> bool) { forall i :: 0 <= i < |s| ==> p(s[i]) }

  predicate WellFormed(v: Json)
    decreases v
  {
    match v
    case JNum(text) => All(text, IsNumberChar)
    case JArr(items) => forall i :: 0 <= i < |items| ==> WellFormed(items[i])
    case JObj(fields) => forall i :: 0 <= i < |fields| ==> WellFormed(fields[i].value)
    case _ => true
  }

  const HEX := "0123456789abcdef"

  /** Section 7: the quote, the backslash and the control characters are escaped. */
  function Escape(c: char): string {
    if c == '"' then "\\\""
    else if c == '\\' then "\\\\"
    else if c == '\n' then "\\n"
    else if c == '\r' then "\\r"
    else if c == '\t' then "\\t"
    else if c as int < 0x20 then "\\u00" + [HEX[c as int / 16]] + [HEX[c as int % 16]]
    else [c]
  }

  function EscapeAll(s: string): string {
    if s == [] then "" else Escape(s[0]) + EscapeAll(s[1..])
  }

  function Quote(s: string): string { "\"" + EscapeAll(s) + "\"" }

  /** The white space at each place of a value; a place is the path to its container and its number there. */
  type Layout = seq<nat> -> string

  ghost predicate Blank(lay: Layout) { forall place :: All(lay(place), IsSpace) }

  /** Compact, indented or anything between: white space of its own goes around every structural character. */
  function Print(v: Json, lay: Layout, path: seq<nat>): string
    decreases v, 1
  {
    match v
    case JNull => "null"
    case JBool(b) => if b then "true" else "false"
    case JNum(text) => text
    case JStr(s) => Quote(s)
    case JArr(items) => "[" + PrintItems(items, lay, path, 0) + "]"
    case JObj(fields) => "{" + PrintFields(fields, lay, path, 0) + "}"
  }

  function PrintItems(items: seq<Json>, lay: Layout, path: seq<nat>, i: nat): string
    decreases items, 0
  {
    var before, behind := lay(path + [2 * i]), lay(path + [2 * i + 1]);
    if items == [] then before
    else before + Print(items[0], lay, path + [i]) + behind
         + (if |items| == 1 then "" else "," + PrintItems(items[1..], lay, path, i + 1))
  }

  function PrintFields(fields: seq<Field>, lay: Layout, path: seq<nat>, i: nat): string
    decreases fields, 0
  {
    var before, behind := lay(path + [4 * i]), lay(path + [4 * i + 3]);
    var colon := lay(path + [4 * i + 1]) + ":" + lay(path + [4 * i + 2]);
    if fields == [] then before
    else before + Quote(fields[0].name) + colon + Print(fields[0].value, lay, path + [i]) + behind
         + (if |fields| == 1 then "" else "," + PrintFields(fields[1..], lay, path, i + 1))
  }

  // ----- text the scanner passes through -----

  /** The scanner reads all of `text` without closing the value, and ends in `st'`. */
  predicate Passes(text: string, st: State, st': State, delim: char)
    decreases |text|
  {
    if text == [] then st == st'
    else !Closes(st, text[0], delim) && Passes(text[1..], Next(st, text[0], delim), st', delim)
  }

  lemma {:induction false} PassesConcat(a: string, b: string, st: State, mid: State, st': State, delim: char)
    requires Passes(a, st, mid, delim) && Passes(b, mid, st', delim)
    ensures Passes(a + b, st, st', delim)
    decreases |a|
  {
    if a == [] {
      assert a + b == b;
    } else {
      assert (a + b)[0] == a[0] && (a + b)[1..] == a[1..] + b;
      PassesConcat(a[1..], b, Next(st, a[0], delim), mid, st', delim);
    }
  }

  lemma {:induction false} PassesThenSpan(a: string, rest: string, st: State, st': State, delim: char)
    requires Passes(a, st, st', delim)
    ensures var r := Span(rest, st', delim);
            Span(a + rest, st, delim) == if r.Some? then Some(r.value + |a|) else None
    decreases |a|
  {
    if a == [] {
      assert a + rest == rest;
    } else {
      assert (a + rest)[0] == a[0] && (a + rest)[1..] == a[1..] + rest;
      PassesThenSpan(a[1..], rest, Next(st, a[0], delim), st', delim);
    }
  }

  predicate IsDelim(delim: char) { delim == '[' || delim == '{' }

  function At(depth: int): State { State(depth, false, false) }

  function InString(depth: int): State { State(depth, true, false) }

  /** Characters that mean nothing to the scanner outside strings. */
  predicate IsPlain(c: char) { c !in ['"', '[', ']', '{', '}'] }

  lemma {:induction false} PlainPasses(text: string, depth: int, delim: char)
    requires IsDelim(delim) && All(text, IsPlain)
    ensures Passes(text, At(depth), At(depth), delim)
    decreases |text|
  {
    if text != [] {
      assert IsPlain(text[0]);
      assert forall i :: 0 <= i < |text| - 1 ==> text[1..][i] == text[i + 1];
      PlainPasses(text[1..], depth, delim);
    }
  }

  predicate IsStringPlain(c: char) { c != '"' && c != '\\' }

  lemma {:induction false} StringPlainPasses(text: string, depth: int, delim: char)
    requires All(text, IsStringPlain)
    ensures Passes(text, InString(depth), InString(depth), delim)
    decreases |text|
  {
    if text != [] {
      assert IsStringPlain(text[0]);
      assert forall i :: 0 <= i < |text| - 1 ==> text[1..][i] == text[i + 1];
      StringPlainPasses(text[1..], depth, delim);
    }
  }

  /** A backslash and whatever follows it leave the scanner inside the string. */
  lemma EscapePairPasses(c: char, depth: int, delim: char)
    ensures Passes("\\" + [c], InString(depth), InString(depth), delim)
  {
    var text := "\\" + [c];
    assert text[0] == '\\' && text[1..] == [c] && [c][1..] == "";
  }

  lemma ControlEscapePasses(c: char, depth: int, delim: char)
    requires c as int < 0x20
    ensures Passes("\\u00" + [HEX[c as int / 16]] + [HEX[c as int % 16]], InString(depth), InString(depth), delim)
  {
    var tail := "00" + [HEX[c as int / 16]] + [HEX[c as int % 16]];
    assert forall i :: 0 <= i < |HEX| ==> IsStringPlain(HEX[i]);
    EscapePairPasses('u', depth, delim);
    StringPlainPasses(tail, depth, delim);
    PassesConcat("\\" + ['u'], tail, InString(depth), InString(depth), InString(depth), delim);
    assert "\\" + ['u'] + tail == "\\u00" + [HEX[c as int / 16]] + [HEX[c as int % 16]];
  }

  lemma EscapePasses(c: char, depth: int, delim: char)
    ensures Passes(Escape(c), InString(depth), InString(depth), delim)
  {
    if c in ['"', '\\', '\n', '\r', '\t'] {
      assert Escape(c) == "\\" + [Escape(c)[1]];
      EscapePairPasses(Escape(c)[1], depth, delim);
    } else if c as int < 0x20 {
      ControlEscapePasses(c, depth, delim);
    } else {
      StringPlainPasses([c], depth, delim);
    }
  }

  lemma {:induction false} EscapeAllPasses(s: string, depth: int, delim: char)
    ensures Passes(EscapeAll(s), InString(depth), InString(depth), delim)
    decreases |s|
  {
    if s != [] {
      EscapePasses(s[0], depth, delim);
      EscapeAllPasses(s[1..], depth, delim);
      PassesConcat(Escape(s[0]), EscapeAll(s[1..]), InString(depth), InString(depth), InString(depth), delim);
    }
  }

  lemma OneCharPasses(c: char, st: State, delim: char)
    requires !Closes(st, c, delim)
    ensures Passes([c], st, Next(st, c, delim), delim)
  {
    assert [c][1..] == "";
  }

  /** A string literal, whatever brackets, quotes and backslashes it holds. */
  lemma QuotePasses(s: string, depth: int, delim: char)
    requires IsDelim(delim)
    ensures Passes(Quote(s), At(depth), At(depth), delim)
  {
    OneCharPasses('"', At(depth), delim);
    OneCharPasses('"', InString(depth), delim);
    EscapeAllPasses(s, depth, delim);
    PassesConcat("\"", EscapeAll(s), At(depth), InString(depth), InString(depth), delim);
    PassesConcat("\"" + EscapeAll(s), "\"", At(depth), InString(depth), At(depth), delim);
  }

  // ----- printed values -----

  /** Brackets around text that passes one level deeper, if they are the counted kind. */
  lemma BracketsPass(open: char, body: string, close: char, depth: int, delim: char)
    requires IsDelim(delim) && IsDelim(open) && close == Closer(open) && depth >= 1
    requires var inner := At(if open == delim then depth + 1 else depth); Passes(body, inner, inner, delim)
    ensures Passes([open] + body + [close], At(depth), At(depth), delim)
  {
    var inner := At(if open == delim then depth + 1 else depth);
    OneCharPasses(open, At(depth), delim);
    OneCharPasses(close, inner, delim);
    PassesConcat([open], body, At(depth), inner, inner, delim);
    PassesConcat([open] + body, [close], At(depth), inner, At(depth), delim);
  }

  lemma {:induction false} PrintPasses(v: Json, lay: Layout, path: seq<nat>, depth: int, delim: char)
    requires WellFormed(v) && Blank(lay) && IsDelim(delim) && depth >= 1
    ensures Passes(Print(v, lay, path), At(depth), At(depth), delim)
    decreases v, 1
  {
    match v
    case JNull => PlainPasses("null", depth, delim);
    case JBool(b) => PlainPasses(if b then "true" else "false", depth, delim);
    case JNum(text) =>
      assert forall c :: IsNumberChar(c) ==> IsPlain(c);
      PlainPasses(text, depth, delim);
    case JStr(s) => QuotePasses(s, depth, delim);
    case JArr(items) =>
      ItemsPass(items, lay, path, 0, if delim == '[' then depth + 1 else depth, delim);
      BracketsPass('[', PrintItems(items, lay, path, 0), ']', depth, delim);
    case JObj(fields) =>
      FieldsPass(fields, lay, path, 0, if delim == '{' then depth + 1 else depth, delim);
      BracketsPass('{', PrintFields(fields, lay, path, 0), '}', depth, delim);
  }

  lemma SpacePasses(ws: string, depth: int, delim: char)
    requires All(ws, IsSpace) && IsDelim(delim)
    ensures Passes(ws, At(depth), At(depth), delim)
  {
    assert forall c :: IsSpace(c) ==> IsPlain(c);
    PlainPasses(ws, depth, delim);
  }

  /** Pieces that each leave the scanner where it was leave it there together. */
  lemma TwoPass(a: string, b: string, depth: int, delim: char)
    requires Passes(a, At(depth), At(depth), delim) && Passes(b, At(depth), At(depth), delim)
    ensures Passes(a + b, At(depth), At(depth), delim)
  {
    PassesConcat(a, b, At(depth), At(depth), At(depth), delim);
  }

  /** A comma and what follows it, or nothing. */
  lemma TailPasses(last: bool, rest: string, depth: int, delim: char)
    requires IsDelim(delim) && (!last ==> Passes(rest, At(depth), At(depth), delim))
    ensures Passes(if last then "" else "," + rest, At(depth), At(depth), delim)
  {
    if !last {
      PlainPasses(",", depth, delim);
      TwoPass(",", rest, depth, delim);
    }
  }

  lemma {:induction false} ItemsPass(items: seq<Json>, lay: Layout, path: seq<nat>, i: nat, depth: int, delim: char)
    requires forall k :: 0 <= k < |items| ==> WellFormed(items[k])
    requires Blank(lay) && IsDelim(delim) && depth >= 1
    ensures Passes(PrintItems(items, lay, path, i), At(depth), At(depth), delim)
    decreases items, 0
  {
    var before, behind := lay(path + [2 * i]), lay(path + [2 * i + 1]);
    SpacePasses(before, depth, delim);
    SpacePasses(behind, depth, delim);
    if items != [] {
      var v := Print(items[0], lay, path + [i]);
      PrintPasses(items[0], lay, path + [i], depth, delim);
      TwoPass(before, v, depth, delim);
      TwoPass(before + v, behind, depth, delim);
      var rest := if |items| == 1 then "" else PrintItems(items[1..], lay, path, i + 1);
      if |items| > 1 {
        ItemsPass(items[1..], lay, path, i + 1, depth, delim);
      }
      TailPasses(|items| == 1, rest, depth, delim);
      TwoPass(before + v + behind, if |items| == 1 then "" else "," + rest, depth, delim);
    }
  }

  lemma ColonPasses(before: string, behind: string, depth: int, delim: char)
    requires All(before, IsSpace) && All(behind, IsSpace) && IsDelim(delim)
    ensures Passes(before + ":" + behind, At(depth), At(depth), delim)
  {
    SpacePasses(before, depth, delim);
    SpacePasses(behind, depth, delim);
    PlainPasses(":", depth, delim);
    TwoPass(before, ":", depth, delim);
    TwoPass(before + ":", behind, depth, delim);
  }

  lemma {:induction false} FieldsPass(fields: seq<Field>, lay: Layout, path: seq<nat>, i: nat, depth: int, delim: char)
    requires forall k :: 0 <= k < |fields| ==> WellFormed(fields[k].value)
    requires Blank(lay) && IsDelim(delim) && depth >= 1
    ensures Passes(PrintFields(fields, lay, path, i), At(depth), At(depth), delim)
    decreases fields, 0
  {
    var before, behind := lay(path + [4 * i]), lay(path + [4 * i + 3]);
    var colon := lay(path + [4 * i + 1]) + ":" + lay(path + [4 * i + 2]);
    SpacePasses(before, depth, delim);
    SpacePasses(behind, depth, delim);
    if fields != [] {
      var k, v := Quote(fields[0].name), Print(fields[0].value, lay, path + [i]);
      QuotePasses(fields[0].name, depth, delim);
      ColonPasses(lay(path + [4 * i + 1]), lay(path + [4 * i + 2]), depth, delim);
      PrintPasses(fields[0].value, lay, path + [i], depth, delim);
      TwoPass(before, k, depth, delim);
      TwoPass(before + k, colon, depth, delim);
      TwoPass(before + k + colon, v, depth, delim);
      TwoPass(before + k + colon + v, behind, depth, delim);
      var rest := if |fields| == 1 then "" else PrintFields(fields[1..], lay, path, i + 1);
      if |fields| > 1 {
        FieldsPass(fields[1..], lay, path, i + 1, depth, delim);
      }
      TailPasses(|fields| == 1, rest, depth, delim);
      TwoPass(before + k + colon + v + behind, if |fields| == 1 then "" else "," + rest, depth, delim);
    }
  }

  // ----- the round trip -----

  /** The bracket a container starts with. */
  function Opener(v: Json): char
    requires v.JArr? || v.JObj?
  {
    if v.JArr? then '[' else '{'
  }

  lemma SpanOfBracketed(delim: char, body: string, suffix: string)
    requires IsDelim(delim) && Passes(body, At(1), At(1), delim)
    ensures Span([delim] + body + [Closer(delim)] + suffix, OUTSIDE, delim) == Some(|body| + 2)
  {
    OneCharPasses(delim, OUTSIDE, delim);
    PassesConcat([delim], body, OUTSIDE, At(1), At(1), delim);
    var rest := [Closer(delim)] + suffix;
    assert rest[0] == Closer(delim);
    PassesThenSpan([delim] + body, rest, OUTSIDE, At(1), delim);
    assert [delim] + body + [Closer(delim)] + suffix == [delim] + body + rest;
  }

  lemma SpanOfPrinted(v: Json, lay: Layout, path: seq<nat>, suffix: string)
    requires WellFormed(v) && Blank(lay) && (v.JArr? || v.JObj?)
    ensures Span(Print(v, lay, path) + suffix, OUTSIDE, Opener(v)) == Some(|Print(v, lay, path)|)
  {
    match v
    case JArr(items) =>
      ItemsPass(items, lay, path, 0, 1, '[');
      SpanOfBracketed('[', PrintItems(items, lay, path, 0), suffix);
    case JObj(fields) =>
      FieldsPass(fields, lay, path, 0, 1, '{');
      SpanOfBracketed('{', PrintFields(fields, lay, path, 0), suffix);
  }

  /**
   For every array or object, any layout, and any text before and after it, the extraction that starts
   at its opening bracket is exactly its printed form.
   */
  lemma ExtractionRoundTrip(prefix: string, v: Json, lay: Layout, path: seq<nat>, suffix: string)
    requires WellFormed(v) && Blank(lay) && (v.JArr? || v.JObj?)
    ensures Balanced(prefix + Print(v, lay, path) + suffix, |prefix|, Opener(v)) == Print(v, lay, path)
  {
    var logs := prefix + Print(v, lay, path) + suffix;
    assert logs[|prefix|..] == Print(v, lay, path) + suffix;
    SpanOfPrinted(v, lay, path, suffix);
    assert logs[|prefix|..|prefix| + |Print(v, lay, path)|] == Print(v, lay, path);
  }

  lemma {:induction false} SpanOfPrefix(text: string, k: nat, st: State, delim: char)
    requires k <= |text| && Span(text[..k], st, delim).Some?
    ensures Span(text, st, delim) == Span(text[..k], st, delim)
    decreases k
  {
    assert text[..k][0] == text[0];
    if !Closes(st, text[0], delim) {
      assert text[..k][1..] == text[1..][..k - 1];
      SpanOfPrefix(text[1..], k - 1, Next(st, text[0], delim), delim);
    }
  }

  /** A value whose text breaks off before its last bracket yields nothing, wherever it breaks off. */
  lemma BrokenOffYieldsNothing(prefix: string, v: Json, lay: Layout, path: seq<nat>, k: nat)
    requires WellFormed(v) && Blank(lay) && (v.JArr? || v.JObj?) && k < |Print(v, lay, path)|
    ensures Balanced(prefix + Print(v, lay, path)[..k], |prefix|, Opener(v)) == ""
  {
    var text := Print(v, lay, path);
    assert (prefix + text[..k])[|prefix|..] == text[..k];
    SpanOfPrinted(v, lay, path, "");
    assert text + "" == text;
    if Span(text[..k], OUTSIDE, Opener(v)).Some? {
      SpanOfPrefix(text, k, OUTSIDE, Opener(v));
    }
  }

  /** Noise that holds no decodable bracket text does not keep the search from the printed value. */
  lemma SearchFindsPrinted<T>(prefix: string, v: Json, lay: Layout, path: seq<nat>, suffix: string,
                              decode: string -> Option<T>, at: nat)
    requires WellFormed(v) && Blank(lay) && (v.JArr? || v.JObj?)
    requires decode(Print(v, lay, path)).Some?
    requires var logs := prefix + Print(v, lay, path) + suffix;
             && Candidate(logs, Opener(v), decode, at)
             && (forall k :: 0 <= k < at ==> !Candidate(logs, Opener(v), decode, k))
             && (forall k :: 0 <= k < |prefix| ==> !Candidate(logs, Opener(v), decode, k))
    ensures at == |prefix| && Balanced(prefix + Print(v, lay, path) + suffix, at, Opener(v)) == Print(v, lay, path)
  {
    var logs := prefix + Print(v, lay, path) + suffix;
    ExtractionRoundTrip(prefix, v, lay, path, suffix);
    assert Print(v, lay, path)[0] == Opener(v);
    assert logs[|prefix|] == Opener(v);
    assert Candidate(logs, Opener(v), decode, |prefix|);
  }

  /** In particular text without the opening bracket never does, whatever the decoder accepts. */
  lemma SearchSkipsCleanText<T>(prefix: string, v: Json, lay: Layout, path: seq<nat>, suffix: string,
                                decode: string -> Option<T>, at: nat)
    requires WellFormed(v) && Blank(lay) && (v.JArr? || v.JObj?) && Opener(v) !in prefix
    requires decode(Print(v, lay, path)).Some?
    requires var logs := prefix + Print(v, lay, path) + suffix;
             && Candidate(logs, Opener(v), decode, at)
             && (forall k :: 0 <= k < at ==> !Candidate(logs, Opener(v), decode, k))
    ensures at == |prefix| && Balanced(prefix + Print(v, lay, path) + suffix, at, Opener(v)) == Print(v, lay, path)
  {
    var logs := prefix + Print(v, lay, path) + suffix;
    forall k | 0 <= k < |prefix| ensures !Candidate(logs, Opener(v), decode, k) {
      assert logs[k] == prefix[k] && prefix[k] in prefix;
    }
    SearchFindsPrinted(prefix, v, lay, path, suffix, decode, at);
  }
}
