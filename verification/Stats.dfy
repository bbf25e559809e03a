/**
 The STATS line of an E4 Job: what its script prints, what the controller reads back.
 */
module E4Stats {
  import opened Types

  // ----- text helpers of the standard library, as values -----

  /** unicode.IsSpace */
  predicate IsSpace(c: char) {
    var n := c as int;
    || 9 <= n <= 13 || n == 32 || n == 0x85 || n == 0xA0 || n == 0x1680 || 0x2000 <= n <= 0x200A
    || n == 0x2028 || n == 0x2029 || n == 0x202F || n == 0x205F || n == 0x3000
  }

  /** Among ASCII characters: tab, line feed, vertical tab, form feed, carriage return and space. */
  lemma AsciiSpaces(c: char)
    requires c as int < 0x80
    ensures IsSpace(c) <==> c as int in {0x09, 0x0A, 0x0B, 0x0C, 0x0D, 0x20}
  {
  }

  predicate Blank(s: string) { forall i :: 0 <= i < |s| ==> IsSpace(s[i]) }

  predicate Solid(s: string) { forall i :: 0 <= i < |s| ==> !IsSpace(s[i]) }

  function TrimLeft(s: string): string {
    if s != [] && IsSpace(s[0]) then TrimLeft(s[1..]) else s
  }

  function TrimRight(s: string): string {
    if s != [] && IsSpace(s[|s| - 1]) then TrimRight(s[..|s| - 1]) else s
  }

  function TrimSpace(s: string): string { TrimRight(TrimLeft(s)) }

  function SplitLines(s: string): seq<string> {
    if s == [] then [""]
    else
      var rest := SplitLines(s[1..]);
      if s[0] == '\n' then [""] + rest else [[s[0]] + rest[0]] + rest[1..]
  }

  function JoinLines(lines: seq<string>): string
    requires lines != []
  {
    if |lines| == 1 then lines[0] else lines[0] + "\n" + JoinLines(lines[1..])
  }

  /** The longest prefix without white space. */
  function WordEnd(s: string): (n: nat)
    ensures n <= |s|
  {
    if s == [] || IsSpace(s[0]) then 0 else 1 + WordEnd(s[1..])
  }

  function Words(s: string): seq<string>
    decreases |s|
  {
    if s == [] then []
    else if IsSpace(s[0]) then Words(s[1..])
    else [s[..WordEnd(s)]] + Words(s[WordEnd(s)..])
  }

  predicate IsDigit(c: char) { '0' <= c <= '9' }

  predicate Digits(s: string) { s != [] && forall i :: 0 <= i < |s| ==> IsDigit(s[i]) }

  function Value(s: string): nat
    requires forall i :: 0 <= i < |s| ==> IsDigit(s[i])
  {
    if s == [] then 0
    else
      assert IsDigit(s[|s| - 1]);
      Value(s[..|s| - 1]) * 10 + (s[|s| - 1] as int - '0' as int)
  }

  const INT64_LIMIT: int := 0x8000_0000_0000_0000

  /** strconv.ParseInt in base ten: an optional sign, digits, and the 64-bit range. */
  function ParseInt(s: string): Option<int> {
    var signed := s != [] && (s[0] == '-' || s[0] == '+');
    var digits := if signed then s[1..] else s;
    if !Digits(digits) then None
    else
      var v: int := if signed && s[0] == '-' then 0 - Value(digits) else Value(digits);
      if -INT64_LIMIT <= v < INT64_LIMIT then Some(v) else None
  }

  function FindChar(s: string, c: char): (i: int)
    ensures -1 <= i < |s|
  {
    if s == [] then -1
    else if s[0] == c then 0
    else
      var i := FindChar(s[1..], c);
      if i < 0 then -1 else i + 1
  }

  // ----- the parser -----

  const TAG := "STATS "

  predicate IsStats(line: string) { TAG <= TrimSpace(line) }

  function LastStatsLine(lines: seq<string>): (line: string)
    ensures line == "" || TAG <= line
  {
    if lines == [] then ""
    else if IsStats(lines[|lines| - 1]) then TrimSpace(lines[|lines| - 1])
    else LastStatsLine(lines[..|lines| - 1])
  }

  /** One key=value word; words that are not a number after the first '=' are skipped. */
  function WithWord(fields: map<string, int>, word: string): map<string, int> {
    var eq := FindChar(word, '=');
    if eq < 0 then fields
    else
      var v := ParseInt(word[eq + 1..]);
      if v.Some? then fields[word[..eq] := v.value] else fields
  }

  function FieldsOf(words: seq<string>): map<string, int> {
    if words == [] then map[] else WithWord(FieldsOf(words[..|words| - 1]), words[|words| - 1])
  }

  function Field(fields: map<string, int>, key: string): int { if key in fields then fields[key] else 0 }

  /** Go's integer division drops the fraction, whichever the sign. */
  function Quotient(a: int, b: int): int
    requires b > 0
  {
    if a >= 0 then a / b else -(-a / b)
  }

  function StatsFrom(fields: map<string, int>): Stats {
    var duration, bytes := Field(fields, "duration"), Field(fields, "bytes");
    Stats(duration, bytes, if duration > 0 then Quotient(bytes, duration) else 0,
          Field(fields, "objects"), Field(fields, "failed"))
  }

  function Parsed(logs: string): Option<Stats> {
    var line := LastStatsLine(SplitLines(logs));
    if line == "" then None else Some(StatsFrom(FieldsOf(Words(line[|TAG|..]))))
  }

  method FindStatsLine(lines: seq<string>) returns (statsLine: string)
    ensures statsLine == LastStatsLine(lines)
  {
    statsLine := "";
    for i := 0 to |lines|
      invariant statsLine == LastStatsLine(lines[..i])
    {
      assert lines[..i + 1][..i] == lines[..i];
      var t := TrimSpace(lines[i]);
      if TAG <= t {
        statsLine := t;
      }
    }
    assert lines[..|lines|] == lines;
  }

  method ReadFields(words: seq<string>) returns (fields: map<string, int>)
    ensures fields == FieldsOf(words)
  {
    fields := map[];
    for i := 0 to |words|
      invariant fields == FieldsOf(words[..i])
    {
      assert words[..i + 1][..i] == words[..i];
      var eq := FindChar(words[i], '=');
      if eq < 0 {
        continue;
      }
      var v := ParseInt(words[i][eq + 1..]);
      if v.None? {
        continue;
      }
      fields := fields[words[i][..eq] := v.value];
    }
    assert words[..|words|] == words;
  }

  method ParseE4Stats(logs: string) returns (r: Option<Stats>)
    ensures r == Parsed(logs)
  {
    var statsLine := FindStatsLine(SplitLines(logs));
    if statsLine == "" {
      return None;
    }
    var fields := ReadFields(Words(statsLine[|TAG|..]));
    return Some(StatsFrom(fields));
  }

  // ----- what the script prints -----

  function Digit(n: nat): char
    requires n < 10
  {
    ('0' as int + n) as char
  }

  function Decimal(n: nat): string {
    if n < 10 then [Digit(n)] else Decimal(n / 10) + [Digit(n % 10)]
  }

  function Pair(key: string, n: nat): string { key + "=" + Decimal(n) }

  function Payload(rc: nat, duration: nat, bytes: nat): seq<string> {
    [Pair("rc", rc), Pair("duration", duration), Pair("bytes", bytes), Pair("objects", 1), Pair("failed", 0)]
  }

  function JoinWords(words: seq<string>): string
    requires words != []
  {
    if |words| == 1 then words[0] else words[0] + " " + JoinWords(words[1..])
  }

  function PrintStats(rc: nat, duration: nat, bytes: nat): string { TAG + JoinWords(Payload(rc, duration, bytes)) }

  // ----- numbers -----

  lemma {:induction false} DecimalRoundTrip(n: nat)
    ensures Digits(Decimal(n)) && Value(Decimal(n)) == n
  {
    if n < 10 {
      assert Decimal(n)[..0] == "";
    } else {
      DecimalRoundTrip(n / 10);
      assert Decimal(n)[..|Decimal(n)| - 1] == Decimal(n / 10);
    }
  }

  lemma ParseDecimal(n: nat)
    requires n < INT64_LIMIT
    ensures ParseInt(Decimal(n)) == Some(n)
  {
    DecimalRoundTrip(n);
    assert IsDigit(Decimal(n)[0]);
  }

  /** Every decimal with an optional sign is read as its number, exactly if that fits 64 bits. */
  lemma ParseSigned(n: nat, sign: string)
    requires sign in ["", "+", "-"]
    ensures var v: int := if sign == "-" then 0 - n else n;
            ParseInt(sign + Decimal(n)) ==
            if -0x8000_0000_0000_0000 <= v < 0x8000_0000_0000_0000 then Some(v) else None
  {
    var digits := Decimal(n);
    assert Digits(digits) && Value(digits) == n by {
      DecimalRoundTrip(n);
    }
    ParseDigits(sign, digits);
  }

  lemma ParseDigits(sign: string, digits: string)
    requires sign in ["", "+", "-"] && Digits(digits)
    ensures var v: int := if sign == "-" then 0 - Value(digits) else Value(digits);
            ParseInt(sign + digits) == if -INT64_LIMIT <= v < INT64_LIMIT then Some(v) else None
  {
    var s := sign + digits;
    assert IsDigit(digits[0]);
    if sign == "" {
      assert s == digits;
    } else {
      assert s[0] == sign[0] && s[1..] == digits;
    }
  }

  lemma {:induction false} FindNone(s: string, c: char)
    requires c !in s
    ensures FindChar(s, c) == -1
  {
    if s != [] {
      FindNone(s[1..], c);
    }
  }

  /** A word counts exactly if it is a key and a number; every other word is skipped. */
  lemma WordCountsExactly(fields: map<string, int>, word: string, key: string, value: string)
    requires '=' !in key
    ensures '=' !in word ==> WithWord(fields, word) == fields
    ensures WithWord(fields, key + "=" + value) ==
            if ParseInt(value).Some? then fields[key := ParseInt(value).value] else fields
  {
    if '=' !in word {
      FindNone(word, '=');
    }
    FindAfter(key, value);
    var pair := key + "=" + value;
    assert pair[..|key|] == key && pair[|key| + 1..] == value;
  }

  /** Counts that are missing are zero, and the throughput is the whole quotient, cut toward zero. */
  lemma StatsFromExactly(fields: map<string, int>)
    ensures var r := StatsFrom(fields);
            && r.duration == (if "duration" in fields then fields["duration"] else 0)
            && r.bytes == (if "bytes" in fields then fields["bytes"] else 0)
            && r.objects == (if "objects" in fields then fields["objects"] else 0)
            && r.failed == (if "failed" in fields then fields["failed"] else 0)
            && (r.duration <= 0 ==> r.throughput == 0)
            && (r.duration > 0 && r.bytes >= 0 ==>
                  r.throughput * r.duration <= r.bytes < (r.throughput + 1) * r.duration)
            && (r.duration > 0 && r.bytes < 0 ==>
                  (r.throughput - 1) * r.duration < r.bytes <= r.throughput * r.duration)
  {
    var r := StatsFrom(fields);
    if r.duration > 0 {
      WholeQuotient(if r.bytes >= 0 then r.bytes else -r.bytes, r.duration);
    }
  }

  lemma {:induction false} FindAfter(key: string, rest: string)
    requires '=' !in key
    ensures FindChar(key + "=" + rest, '=') == |key|
  {
    if key == [] {
      assert key + "=" + rest == "=" + rest;
    } else {
      assert (key + "=" + rest)[1..] == key[1..] + "=" + rest;
      FindAfter(key[1..], rest);
    }
  }

  lemma PairWord(fields: map<string, int>, key: string, n: nat)
    requires '=' !in key && n < INT64_LIMIT
    ensures WithWord(fields, Pair(key, n)) == fields[key := n]
  {
    FindAfter(key, Decimal(n));
    assert Pair(key, n)[|key| + 1..] == Decimal(n) && Pair(key, n)[..|key|] == key;
    ParseDecimal(n);
  }

  lemma PairSolid(key: string, n: nat)
    requires Solid(key)
    ensures Solid(Pair(key, n)) && Pair(key, n) != []
  {
    DecimalRoundTrip(n);
  }

  // ----- words -----

  lemma {:induction false} WordEndOf(w: string, rest: string)
    requires Solid(w) && (rest == [] || IsSpace(rest[0]))
    ensures WordEnd(w + rest) == |w|
  {
    if w == [] {
      assert w + rest == rest;
    } else {
      assert (w + rest)[1..] == w[1..] + rest && !IsSpace(w[0]);
      assert forall i :: 0 <= i < |w| - 1 ==> w[1..][i] == w[i + 1];
      WordEndOf(w[1..], rest);
    }
  }

  predicate WordList(words: seq<string>) { forall i :: 0 <= i < |words| ==> words[i] != [] && Solid(words[i]) }

  lemma {:induction false} WordsOfJoin(words: seq<string>)
    requires words != [] && WordList(words)
    ensures Words(JoinWords(words)) == words
  {
    var w := words[0];
    if |words| == 1 {
      WordEndOf(w, "");
      assert w + "" == w && w[..|w|] == w && w[|w|..] == "" && !IsSpace(w[0]);
      assert Words("") == [];
    } else {
      var rest := JoinWords(words[1..]);
      var s := w + " " + rest;
      assert s == w + (" " + rest) && s[0] == w[0] && !IsSpace(w[0]);
      WordEndOf(w, " " + rest);
      assert s[..|w|] == w && s[|w|..] == " " + rest && (" " + rest)[1..] == rest;
      assert IsSpace(' ');
      WordsOfJoin(words[1..]);
    }
  }

  lemma PayloadWords(rc: nat, duration: nat, bytes: nat)
    ensures WordList(Payload(rc, duration, bytes))
  {
    PairSolid("rc", rc);
    PairSolid("duration", duration);
    PairSolid("bytes", bytes);
    PairSolid("objects", 1);
    PairSolid("failed", 0);
  }

  lemma PayloadFields(rc: nat, duration: nat, bytes: nat)
    requires rc < INT64_LIMIT && duration < INT64_LIMIT && bytes < INT64_LIMIT
    ensures FieldsOf(Payload(rc, duration, bytes)) ==
            map["rc" := rc, "duration" := duration, "bytes" := bytes, "objects" := 1, "failed" := 0]
  {
    var p := Payload(rc, duration, bytes);
    assert p[..4][..3] == p[..3] && p[..3][..2] == p[..2] && p[..2][..1] == p[..1] && p[..1][..0] == [];
    assert FieldsOf(p[..0]) == map[];
    PairWord(map[], "rc", rc);
    assert FieldsOf(p[..1]) == map["rc" := rc];
    PairWord(map["rc" := rc], "duration", duration);
    assert FieldsOf(p[..2]) == map["rc" := rc, "duration" := duration];
    PairWord(FieldsOf(p[..2]), "bytes", bytes);
    PairWord(FieldsOf(p[..3]), "objects", 1);
    PairWord(FieldsOf(p[..4]), "failed", 0);
  }

  // ----- lines -----

  lemma {:induction false} TrimLeftPad(pad: string, s: string)
    requires Blank(pad) && (s == [] || !IsSpace(s[0]))
    ensures TrimLeft(pad + s) == s
  {
    if pad == [] {
      assert pad + s == s;
    } else {
      assert (pad + s)[1..] == pad[1..] + s && IsSpace(pad[0]);
      assert forall i :: 0 <= i < |pad| - 1 ==> pad[1..][i] == pad[i + 1];
      TrimLeftPad(pad[1..], s);
    }
  }

  lemma {:induction false} TrimRightPad(s: string, pad: string)
    requires Blank(pad) && s != [] && !IsSpace(s[|s| - 1])
    ensures TrimRight(s + pad) == s
  {
    if pad == [] {
      assert s + pad == s;
    } else {
      var n := |pad| - 1;
      assert (s + pad)[..|s + pad| - 1] == s + pad[..n] && (s + pad)[|s + pad| - 1] == pad[n] && IsSpace(pad[n]);
      TrimRightPad(s, pad[..n]);
    }
  }

  lemma TrimPadded(before: string, s: string, behind: string)
    requires Blank(before) && Blank(behind) && s != [] && !IsSpace(s[0]) && !IsSpace(s[|s| - 1])
    ensures TrimSpace(before + s + behind) == s
  {
    assert before + s + behind == before + (s + behind);
    assert (s + behind)[0] == s[0];
    TrimLeftPad(before, s + behind);
    TrimRightPad(s, behind);
  }

  predicate OneLine(s: string) { '\n' !in s }

  lemma {:induction false} SplitLine(line: string, rest: string)
    requires OneLine(line)
    ensures SplitLines(line + "\n" + rest) == [line] + SplitLines(rest)
  {
    if line == [] {
      assert line + "\n" + rest == "\n" + rest && ("\n" + rest)[1..] == rest;
    } else {
      assert (line + "\n" + rest)[1..] == line[1..] + "\n" + rest;
      SplitLine(line[1..], rest);
      assert [line[0]] + line[1..] == line;
    }
  }

  lemma {:induction false} SplitLast(line: string)
    requires OneLine(line)
    ensures SplitLines(line) == [line]
  {
    if line != [] {
      SplitLast(line[1..]);
      assert [line[0]] + line[1..] == line;
    }
  }

  lemma {:induction false} SplitOfJoin(lines: seq<string>)
    requires lines != [] && forall i :: 0 <= i < |lines| ==> OneLine(lines[i])
    ensures SplitLines(JoinLines(lines)) == lines
  {
    if |lines| == 1 {
      SplitLast(lines[0]);
    } else {
      SplitOfJoin(lines[1..]);
      SplitLine(lines[0], JoinLines(lines[1..]));
    }
  }

  lemma {:induction false} LastStatsIsAt(lines: seq<string>, k: nat)
    requires k < |lines| && IsStats(lines[k]) && forall i :: k < i < |lines| ==> !IsStats(lines[i])
    ensures LastStatsLine(lines) == TrimSpace(lines[k])
    decreases |lines|
  {
    if k < |lines| - 1 {
      LastStatsIsAt(lines[..|lines| - 1], k);
    }
  }

  lemma JoinEnds(words: seq<string>)
    requires words != [] && WordList(words)
    ensures var s := JoinWords(words); s != [] && !IsSpace(s[0]) && !IsSpace(s[|s| - 1])
  {
    if |words| > 1 {
      JoinEnds(words[1..]);
    }
  }

  // ----- the round trip -----

  lemma PrintedLine(rc: nat, duration: nat, bytes: nat, before: string, behind: string)
    requires Blank(before) && Blank(behind)
    ensures TrimSpace(before + PrintStats(rc, duration, bytes) + behind) == PrintStats(rc, duration, bytes)
    ensures IsStats(before + PrintStats(rc, duration, bytes) + behind)
  {
    var line := PrintStats(rc, duration, bytes);
    PayloadWords(rc, duration, bytes);
    JoinEnds(Payload(rc, duration, bytes));
    var s := JoinWords(Payload(rc, duration, bytes));
    assert line[0] == 'S' && line[|line| - 1] == s[|s| - 1];
    TrimPadded(before, line, behind);
  }

  /** The counts a result must carry. */
  predicate Carries(r: Stats, duration: nat, bytes: nat) {
    && r.duration == duration && r.bytes == bytes && r.objects == 1 && r.failed == 0
    && (duration == 0 ==> r.throughput == 0)
    && (duration > 0 ==> r.throughput * duration <= bytes < (r.throughput + 1) * duration)
  }

  lemma PrintedCounts(rc: nat, duration: nat, bytes: nat)
    requires rc < INT64_LIMIT && duration < INT64_LIMIT && bytes < INT64_LIMIT
    ensures Carries(StatsFrom(FieldsOf(Payload(rc, duration, bytes))), duration, bytes)
  {
    PayloadFields(rc, duration, bytes);
    if duration > 0 {
      WholeQuotient(bytes, duration);
    }
  }

  lemma PrintedWords(rc: nat, duration: nat, bytes: nat)
    ensures Words(PrintStats(rc, duration, bytes)[|TAG|..]) == Payload(rc, duration, bytes)
  {
    assert PrintStats(rc, duration, bytes)[|TAG|..] == JoinWords(Payload(rc, duration, bytes));
    PayloadWords(rc, duration, bytes);
    WordsOfJoin(Payload(rc, duration, bytes));
  }

  /**
   For all 64-bit counts: a log whose last STATS line is the printed one, padded with any white space,
   reads back as those counts, and the throughput is the whole number of bytes per second below.
   */
  lemma StatsRoundTrip(rc: nat, duration: nat, bytes: nat, lines: seq<string>, k: nat, before: string, behind: string)
    requires rc < INT64_LIMIT && duration < INT64_LIMIT && bytes < INT64_LIMIT
    requires Blank(before) && Blank(behind) && k < |lines|
    requires forall i :: 0 <= i < |lines| ==> OneLine(lines[i])
    requires lines[k] == before + PrintStats(rc, duration, bytes) + behind
    requires forall i :: k < i < |lines| ==> !IsStats(lines[i])
    ensures Parsed(JoinLines(lines)).Some? && Carries(Parsed(JoinLines(lines)).value, duration, bytes)
  {
    SplitOfJoin(lines);
    PrintedLine(rc, duration, bytes, before, behind);
    LastStatsIsAt(lines, k);
    PrintedWords(rc, duration, bytes);
    PrintedCounts(rc, duration, bytes);
  }

  lemma WholeQuotient(a: nat, b: int)
    requires b > 0
    ensures Quotient(a, b) * b <= a < (Quotient(a, b) + 1) * b
  {
  }

  lemma {:induction false} NoStatsLine(lines: seq<string>)
    requires forall i :: 0 <= i < |lines| ==> !IsStats(lines[i])
    ensures LastStatsLine(lines) == ""
  {
    if lines != [] {
      NoStatsLine(lines[..|lines| - 1]);
    }
  }

  lemma {:induction false} SomeStatsLine(lines: seq<string>, k: nat)
    requires k < |lines| && IsStats(lines[k])
    ensures LastStatsLine(lines) != ""
    decreases |lines|
  {
    if !IsStats(lines[|lines| - 1]) {
      SomeStatsLine(lines[..|lines| - 1], k);
    }
  }

  /** A log yields a result exactly if it holds a STATS line. */
  lemma ParsedExactlyWithStats(lines: seq<string>)
    requires lines != [] && forall i :: 0 <= i < |lines| ==> OneLine(lines[i])
    ensures Parsed(JoinLines(lines)).Some? <==> exists k :: 0 <= k < |lines| && IsStats(lines[k])
  {
    SplitOfJoin(lines);
    if k :| 0 <= k < |lines| && IsStats(lines[k]) {
      SomeStatsLine(lines, k);
    } else {
      NoStatsLine(lines);
    }
  }
}
