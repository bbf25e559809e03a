/**
 Finding a JSON value in a noisy log: the bracket scanner, and the search that tries every delimiter.
 */
module Scanner {
  import opened Types

  function Closer(delim: char): char { if delim == '[' then ']' else '}' }

  /** Where the scan is: how many brackets are open, inside a string, after a backslash. */
  datatype State = State(depth: int, inStr: bool, escaped: bool)

  const OUTSIDE := State(0, false, false)

  function Next(st: State, c: char, delim: char): State {
    if st.escaped then st.(escaped := false)
    else if st.inStr then
      if c == '\\' then st.(escaped := true) else if c == '"' then st.(inStr := false) else st
    else if c == '"' then st.(inStr := true)
    else if c == delim then st.(depth := st.depth + 1)
    else if c == Closer(delim) then st.(depth := st.depth - 1)
    else st
  }

  /** The character that brings the depth back to zero ends the value. */
  predicate Closes(st: State, c: char, delim: char) {
    !st.escaped && !st.inStr && c == Closer(delim) && st.depth == 1
  }

  /** How many characters of `text` the value takes, scanning from `st`; none if it never closes. */
  function Span(text: string, st: State, delim: char): (r: Option<nat>)
    ensures r.Some? ==> 0 < r.value <= |text|
    decreases |text|
  {
    if text == [] then None
    else if Closes(st, text[0], delim) then Some(1)
    else
      var rest := Span(text[1..], Next(st, text[0], delim), delim);
      if rest.Some? then Some(rest.value + 1) else None
  }

  /** The balanced text from `start`, or nothing. */
  function Balanced(logs: string, start: nat, delim: char): string
    requires start <= |logs|
  {
    var n := Span(logs[start..], OUTSIDE, delim);
    if n.Some? then logs[start..start + n.value] else ""
  }

  method ExtractBalanced(logs: string, start: nat, delim: char) returns (body: string)
    requires start <= |logs| && (delim == '[' || delim == '{')
    ensures body == Balanced(logs, start, delim)
  {
    var closer := if delim == '[' then ']' else '}';
    var depth, inStr, escaped := 0, false, false;
    var i := start;
    while i < |logs|
      invariant start <= i <= |logs|
      invariant var here := Span(logs[i..], State(depth, inStr, escaped), delim);
                var whole := Span(logs[start..], OUTSIDE, delim);
                whole == if here.Some? then Some(here.value + (i - start)) else None
    {
      var c := logs[i];
      ghost var st := State(depth, inStr, escaped);
      assert logs[i..][0] == c && logs[i..][1..] == logs[i + 1..];
      if escaped {
        escaped := false;
      } else if inStr {
        if c == '\\' {
          escaped := true;
        } else if c == '"' {
          inStr := false;
        }
      } else if c == '"' {
        inStr := true;
      } else if c == delim {
        depth := depth + 1;
      } else if c == closer {
        depth := depth - 1;
        if depth == 0 {
          return logs[start..i + 1];
        }
      }
      assert State(depth, inStr, escaped) == Next(st, c, delim) && !Closes(st, c, delim);
      i := i + 1;
    }
    return "";
  }

  // ----- trying every delimiter -----

  /** A position worth stopping at: a delimiter whose balanced text decodes. */
  predicate Candidate<T>(logs: string, delim: char, decode: string -> Option<T>, at: nat) {
    at < |logs| && logs[at] == delim && Balanced(logs, at, delim) != "" && decode(Balanced(logs, at, delim)).Some?
  }

  method IndexByte(s: string, c: char) returns (i: int)
    ensures -1 <= i < |s|
    ensures i >= 0 ==> s[i] == c && forall k :: 0 <= k < i ==> s[k] != c
    ensures i < 0 ==> c !in s
  {
    for k := 0 to |s|
      invariant forall m :: 0 <= m < k ==> s[m] != c
    {
      if s[k] == c {
        return k;
      }
    }
    return -1;
  }

  /** The leftmost candidate is the one decoded; without one the search fails. */
  method FindAndUnmarshal<T>(logs: string, delim: char, decode: string -> Option<T>) returns (r: Option<T>)
    requires delim == '[' || delim == '{'
    ensures r.Some? <==> exists at: nat :: Candidate(logs, delim, decode, at)
    ensures r.Some? ==> exists at: nat :: && Candidate(logs, delim, decode, at)
                                     && (forall k :: 0 <= k < at ==> !Candidate(logs, delim, decode, k))
                                     && r == decode(Balanced(logs, at, delim))
  {
    var offset := 0;
    while offset < |logs|
      invariant 0 <= offset <= |logs|
      invariant forall k :: 0 <= k < offset ==> !Candidate(logs, delim, decode, k)
    {
      var idx := IndexByte(logs[offset..], delim);
      if idx < 0 {
        forall k | offset <= k < |logs| ensures !Candidate(logs, delim, decode, k) {
          assert logs[k] == logs[offset..][k - offset];
        }
        return None;
      }
      var start := offset + idx;
      forall k | offset <= k < start ensures !Candidate(logs, delim, decode, k) {
        assert logs[k] == logs[offset..][k - offset];
      }
      var body := ExtractBalanced(logs, start, delim);
      if body != "" {
        var v := decode(body);
        if v.Some? {
          assert Candidate(logs, delim, decode, start);
          return v;
        }
      }
      offset := start + 1;
    }
    return None;
  }

  // ----- the newest snapshot -----

  /** The last snapshot unless an earlier one is strictly newer; then the first of the newest. */
  method LatestByTime(times: seq<Time>) returns (k: nat)
    requires times != []
    ensures k < |times| && forall i :: 0 <= i < |times| ==> times[i] <= times[k]
    ensures times[k] == times[|times| - 1] ==> k == |times| - 1
    ensures times[k] != times[|times| - 1] ==> forall i :: 0 <= i < k ==> times[i] < times[k]
  {
    k := |times| - 1;
    for i := 0 to |times|
      invariant k < |times| && times[|times| - 1] <= times[k]
      invariant forall m :: 0 <= m < i ==> times[m] <= times[k]
      invariant k == |times| - 1 || (k < i && times[|times| - 1] < times[k])
      invariant k == |times| - 1 || forall m :: 0 <= m < k ==> times[m] < times[k]
    {
      if times[i] > times[k] {
        k := i;
      }
    }
  }
}
