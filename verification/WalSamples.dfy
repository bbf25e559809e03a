/**
 E3's sample of write-ahead-log segments: which object keys name a segment, and what is drawn from them.
 */
module WalSamples {
  import opened Types

  const SEGMENT_LENGTH := 24

  predicate IsHex(c: char) { '0' <= c <= '9' || 'A' <= c <= 'F' || 'a' <= c <= 'f' }

  predicate IsSegment(s: string) { |s| == SEGMENT_LENGTH && forall i :: 0 <= i < |s| ==> IsHex(s[i]) }

  function TrimPrefix(s: string, prefix: string): string { if prefix <= s then s[|prefix|..] else s }

  function LastDot(s: string): (i: int)
    ensures -1 <= i < |s|
    ensures i >= 0 ==> s[i] == '.' && '.' !in s[i + 1..]
    ensures i < 0 ==> '.' !in s
  {
    if s == [] then -1
    else if s[|s| - 1] == '.' then |s| - 1
    else
      var i := LastDot(s[..|s| - 1]);
      assert s == s[..|s| - 1] + [s[|s| - 1]];
      assert i >= 0 ==> s[i + 1..] == s[..|s| - 1][i + 1..] + [s[|s| - 1]];
      i
  }

  /** `base` is the segment name, alone or with one extension that has no dot of its own. */
  ghost predicate Names(base: string, segment: string) {
    IsSegment(segment) && (base == segment || exists ext: string :: '.' !in ext && base == segment + "." + ext)
  }

  /** What is left of a name without its last extension; a leading dot starts none. */
  function Base(name: string): string {
    var dot := LastDot(name);
    if dot > 0 then name[..dot] else name
  }

  function SegmentOf(name: string): Option<string> { if IsSegment(Base(name)) then Some(Base(name)) else None }

  /** The segment of a name is the only one the name can stand for. */
  lemma SegmentOfNames(name: string, s: string)
    ensures SegmentOf(name) == Some(s) <==> Names(name, s)
  {
    var dot := LastDot(name);
    if Names(name, s) {
      NamesUniquely(name, s, dot);
    }
    if SegmentOf(name) == Some(s) && dot > 0 {
      assert name == s + "." + name[dot + 1..];
    }
  }

  /**
   Of a key under the prefix: it yields a segment exactly if it is the prefix and the segment, alone or with one
   extension that has no dot of its own.
   */
  lemma KeyYieldsExactly(prefix: string, rest: string, s: string)
    ensures SegmentOf(TrimPrefix(prefix + rest, prefix)) == Some(s) <==>
            IsSegment(s) && (rest == s || exists ext: string :: '.' !in ext && rest == s + "." + ext)
  {
    assert (prefix + rest)[|prefix|..] == rest;
    SegmentOfNames(rest, s);
  }

  /** A segment is 24 hexadecimal digits of either case. */
  lemma SegmentExactly(s: string)
    ensures IsSegment(s) <==> |s| == 24 && forall i :: 0 <= i < |s| ==> s[i] in "0123456789abcdefABCDEF"
  {
    forall c: char ensures IsHex(c) <==> c in "0123456789abcdefABCDEF" {
      HexExactly(c);
    }
  }

  lemma HexExactly(c: char)
    ensures IsHex(c) <==> c in "0123456789abcdefABCDEF"
  {
    var digits := "0123456789abcdefABCDEF";
    if '0' <= c <= '9' {
      assert digits[c as int - '0' as int] == c;
    } else if 'a' <= c <= 'f' {
      assert digits[10 + (c as int - 'a' as int)] == c;
    } else if 'A' <= c <= 'F' {
      assert digits[16 + (c as int - 'A' as int)] == c;
    }
  }

  /** A key that is not under the prefix is judged as it is. */
  lemma ForeignKeyYieldsExactly(key: string, prefix: string, s: string)
    requires !(prefix <= key)
    ensures SegmentOf(TrimPrefix(key, prefix)) == Some(s) <==> Names(key, s)
  {
    SegmentOfNames(key, s);
  }

  method WalgSegmentName(key: string, listPrefix: string) returns (r: Option<string>)
    ensures r == SegmentOf(TrimPrefix(key, listPrefix))
    ensures forall s: string :: r == Some(s) <==> Names(TrimPrefix(key, listPrefix), s)
  {
    var base := TrimPrefix(key, listPrefix);
    ghost var name := base;
    var dot := LastDot(base);
    if dot > 0 {
      base := base[..dot];
    }
    forall s: string ensures SegmentOf(name) == Some(s) <==> Names(name, s) {
      SegmentOfNames(name, s);
    }
    if |base| != SEGMENT_LENGTH {
      return None;
    }
    for i := 0 to |base|
      invariant forall k :: 0 <= k < i ==> IsHex(base[k])
    {
      if !IsHex(base[i]) {
        return None;
      }
    }
    return Some(base);
  }

  lemma {:induction false} LastDotIs(s: string, k: nat)
    requires k < |s| && s[k] == '.' && '.' !in s[k + 1..]
    ensures LastDot(s) == k
    decreases |s|
  {
    if k < |s| - 1 {
      var init := s[..|s| - 1];
      assert s[|s| - 1] == s[k + 1..][|s| - k - 2];
      assert init[k + 1..] == s[k + 1..][..|s| - k - 2];
      LastDotIs(init, k);
    }
  }

  lemma NamesUniquely(full: string, s: string, dot: int)
    requires Names(full, s) && dot == LastDot(full)
    ensures s == if dot > 0 then full[..dot] else full
  {
    if full != s {
      var ext: string :| '.' !in ext && full == s + "." + ext;
      assert full[|s| + 1..] == ext;
      LastDotIs(full, |s|);
    }
  }

  // ----- lexicographic order -----

  predicate Leq(a: string, b: string) {
    a == [] || (b != [] && (a[0] < b[0] || (a[0] == b[0] && Leq(a[1..], b[1..]))))
  }

  lemma LeqTotal(a: string, b: string)
    ensures Leq(a, b) || Leq(b, a)
  {
  }

  lemma LeqTransitive(a: string, b: string, c: string)
    requires Leq(a, b) && Leq(b, c)
    ensures Leq(a, c)
  {
  }

  predicate Sorted(s: seq<string>) { forall i, k :: 0 <= i < k < |s| ==> Leq(s[i], s[k]) }

  function Insert(x: string, s: seq<string>): seq<string> {
    if s == [] then [x] else if Leq(x, s[0]) then [x] + s else [s[0]] + Insert(x, s[1..])
  }

  lemma {:induction false} InsertKeeps(x: string, s: seq<string>)
    requires Sorted(s)
    ensures Sorted(Insert(x, s)) && multiset(Insert(x, s)) == multiset(s) + multiset{x}
  {
    if s == [] {
    } else if Leq(x, s[0]) {
      forall k | 0 <= k < |s| ensures Leq(x, s[k]) {
        if k > 0 {
          LeqTransitive(x, s[0], s[k]);
        }
      }
    } else {
      InsertKeeps(x, s[1..]);
      LeqTotal(x, s[0]);
      var r := Insert(x, s[1..]);
      assert s == [s[0]] + s[1..];
      forall k | 0 <= k < |r| ensures Leq(s[0], r[k]) {
        assert r[k] in multiset(r);
        assert r[k] == x || r[k] in s[1..];
      }
    }
  }

  method SortStrings(s: seq<string>) returns (r: seq<string>)
    ensures Sorted(r) && multiset(r) == multiset(s)
  {
    r := [];
    for i := 0 to |s|
      invariant Sorted(r) && multiset(r) == multiset(s[..i])
    {
      InsertKeeps(s[i], r);
      assert s[..i + 1] == s[..i] + [s[i]];
      r := Insert(s[i], r);
    }
    assert s[..|s|] == s;
  }

  // ----- the sample -----

  datatype ListedKey = Key(key: string) | KeyError

  /** Swap each position from the end with a drawn one not after it. */
  method Shuffle(a: array<string>, draws: seq<nat>)
    requires |draws| == a.Length && forall i :: 0 <= i < |draws| ==> draws[i] <= i
    modifies a
    ensures multiset(a[..]) == multiset(old(a[..]))
  {
    var i := a.Length;
    while i > 1
      invariant 0 <= i <= a.Length
      invariant multiset(a[..]) == multiset(old(a[..]))
    {
      i := i - 1;
      a[i], a[draws[i]] := a[draws[i]], a[i];
    }
  }

  /** What the keys of a listing stand for, in order, repeated keys counting each time. */
  function Collect(listing: seq<ListedKey>, name: string -> Option<string>): (names: seq<string>)
    ensures |names| <= |listing|
  {
    if listing == [] then []
    else
      var last := listing[|listing| - 1];
      var found := if last.Key? then name(last.key) else None;
      Collect(listing[..|listing| - 1], name) + if found.Some? then [found.value] else []
  }

  function NameUnder(prefix: string): string -> Option<string> { key => SegmentOf(TrimPrefix(key, prefix)) }

  function Segments(listing: seq<ListedKey>, prefix: string): seq<string> { Collect(listing, NameUnder(prefix)) }

  lemma {:induction false} CollectedAreSegments(listing: seq<ListedKey>, name: string -> Option<string>)
    requires forall key :: name(key).Some? ==> IsSegment(name(key).value)
    ensures forall i :: 0 <= i < |Collect(listing, name)| ==> IsSegment(Collect(listing, name)[i])
    decreases |listing|
  {
    if listing != [] {
      CollectedAreSegments(listing[..|listing| - 1], name);
    }
  }

  lemma SegmentsAreSegments(listing: seq<ListedKey>, prefix: string)
    ensures |Segments(listing, prefix)| <= |listing|
    ensures forall i :: 0 <= i < |Segments(listing, prefix)| ==> IsSegment(Segments(listing, prefix)[i])
  {
    CollectedAreSegments(listing, NameUnder(prefix));
  }

  /** The key of a segment as it is archived: compressed with one extension, or plain. */
  ghost predicate IsArchived(k: ListedKey, prefix: string, s: string) {
    && IsSegment(s) && k.Key?
    && (k.key == prefix + s || exists ext: string :: '.' !in ext && k.key == prefix + (s + "." + ext))
  }

  lemma ArchivedNames(k: ListedKey, prefix: string, s: string)
    requires IsArchived(k, prefix, s)
    ensures SegmentOf(TrimPrefix(k.key, prefix)) == Some(s)
  {
    if k.key == prefix + s {
      KeyYieldsExactly(prefix, s, s);
    } else {
      var ext: string :| '.' !in ext && k.key == prefix + (s + "." + ext);
      KeyYieldsExactly(prefix, s + "." + ext, s);
    }
  }

  lemma {:induction false} NamedAreCollected(listing: seq<ListedKey>, name: string -> Option<string>,
                                             names: seq<string>)
    requires |listing| == |names|
    requires forall i :: 0 <= i < |names| ==> listing[i].Key? && name(listing[i].key) == Some(names[i])
    ensures Collect(listing, name) == names
    decreases |names|
  {
    if names != [] {
      var n := |names| - 1;
      NamedAreCollected(listing[..n], name, names[..n]);
      assert names == names[..n] + [names[n]];
    }
  }

  /** A listing of archived segments yields them all, in order. */
  lemma ArchiveIsCollected(listing: seq<ListedKey>, prefix: string, segs: seq<string>)
    requires |listing| == |segs| && forall i :: 0 <= i < |segs| ==> IsArchived(listing[i], prefix, segs[i])
    ensures Segments(listing, prefix) == segs
  {
    var name := NameUnder(prefix);
    forall i | 0 <= i < |segs| ensures listing[i].Key? && name(listing[i].key) == Some(segs[i]) {
      ArchivedNames(listing[i], prefix, segs[i]);
    }
    NamedAreCollected(listing, name, segs);
  }

  method CollectSegments(listing: seq<ListedKey>, prefix: string) returns (ok: bool, segs: seq<string>)
    ensures ok <==> KeyError !in listing
    ensures ok ==> segs == Segments(listing, prefix)
    ensures ok ==> |segs| <= |listing| && forall i :: 0 <= i < |segs| ==> IsSegment(segs[i])
  {
    segs := [];
    for i := 0 to |listing|
      invariant KeyError !in listing[..i]
      invariant segs == Collect(listing[..i], NameUnder(prefix))
    {
      assert listing[..i + 1][..i] == listing[..i];
      if listing[i].KeyError? {
        return false, segs;
      }
      var name := WalgSegmentName(listing[i].key, prefix);
      if name.Some? {
        segs := segs + [name.value];
      }
    }
    assert listing[..|listing|] == listing;
    SegmentsAreSegments(listing, prefix);
    ok := true;
  }

  /** Shuffle, take the first n, sort. */
  method Sample(segs: seq<string>, n: nat, draws: seq<nat>) returns (selected: seq<string>)
    requires |draws| == |segs| && forall i :: 0 <= i < |draws| ==> draws[i] <= i
    ensures Sorted(selected) && multiset(selected) <= multiset(segs)
    ensures |selected| == if n <= |segs| then n else |segs|
  {
    var count := if n > |segs| then |segs| else n;
    var a := new string[|segs|](i requires 0 <= i < |segs| => segs[i]);
    assert a[..] == segs;
    Shuffle(a, draws);
    assert a[..] == a[..count] + a[count..];
    selected := SortStrings(a[..count]);
    SameLength(selected, a[..count]);
  }

  /** For any shuffle: sorted, as many as asked for or all there are, drawn without replacement, all segment names. */
  method PickWalgSamples(listing: seq<ListedKey>, prefix: string, n: nat, draws: seq<nat>)
    returns (ok: bool, selected: seq<string>)
    requires |draws| >= |listing| && forall i :: 0 <= i < |draws| ==> draws[i] <= i
    ensures ok <==> KeyError !in listing
    ensures ok ==> Sorted(selected) && multiset(selected) <= multiset(Segments(listing, prefix))
    ensures ok ==> var all := |Segments(listing, prefix)|; |selected| == if n <= all then n else all
    ensures forall i :: 0 <= i < |selected| ==> IsSegment(selected[i])
  {
    var segs;
    selected := [];
    ok, segs := CollectSegments(listing, prefix);
    if !ok || segs == [] {
      return;
    }
    selected := Sample(segs, n, draws[..|segs|]);
    MembersAreSegments(selected, segs);
  }

  lemma MembersAreSegments(selected: seq<string>, segs: seq<string>)
    requires multiset(selected) <= multiset(segs) && forall i :: 0 <= i < |segs| ==> IsSegment(segs[i])
    ensures forall i :: 0 <= i < |selected| ==> IsSegment(selected[i])
  {
    forall i | 0 <= i < |selected| ensures IsSegment(selected[i]) {
      assert selected[i] in multiset(selected);
      assert selected[i] in multiset(segs);
    }
  }

  lemma SameLength(a: seq<string>, b: seq<string>)
    requires multiset(a) == multiset(b)
    ensures |a| == |b|
  {
    assert |multiset(a)| == |a| && |multiset(b)| == |b|;
  }
}
