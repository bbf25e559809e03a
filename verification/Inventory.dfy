/**
 The E1 probe: its phases, what is missing when one fails, and the fold over the full listing.
 */
module InventoryProbe {
  import opened Types
  import opened Runs

  datatype Listed = Object(size: int, modified: Time) | ListError

  datatype Scan = Scan(count: nat, bytes: int, oldest: Option<Time>, newest: Option<Time>)

  const INT64_RANGE: int := 0x1_0000_0000_0000_0000
  const INT64_HALF: int := 0x8000_0000_0000_0000

  /** Two's-complement wrap-around of a 64-bit sum. */
  function Wrap(x: int): int { (x + INT64_HALF) % INT64_RANGE - INT64_HALF }

  /** The sum as a 64-bit integer: in range, itself where it fits, and off by a multiple of 2^64 otherwise. */
  lemma WrapExactly(x: int)
    ensures -0x8000_0000_0000_0000 <= Wrap(x) < 0x8000_0000_0000_0000
    ensures (x - Wrap(x)) % 0x1_0000_0000_0000_0000 == 0
    ensures -0x8000_0000_0000_0000 <= x < 0x8000_0000_0000_0000 ==> Wrap(x) == x
  {
    var q := (x + INT64_HALF) / INT64_RANGE;
    assert x - Wrap(x) == q * INT64_RANGE + 0;
    ModShift(0, q);
  }

  lemma WrapAdds(a: int, b: int)
    ensures Wrap(Wrap(a) + b) == Wrap(a + b)
  {
    ModAdds(a + INT64_HALF, b);
  }

  lemma ModAdds(x: int, b: int)
    ensures (x % INT64_RANGE + b) % INT64_RANGE == (x + b) % INT64_RANGE
  {
    var q := x / INT64_RANGE;
    assert x == q * INT64_RANGE + x % INT64_RANGE;
    ModShift(x % INT64_RANGE + b, q);
  }

  lemma ModShift(y: int, q: int)
    ensures (y + q * INT64_RANGE) % INT64_RANGE == y % INT64_RANGE
  {
    var d, r := y / INT64_RANGE, y % INT64_RANGE;
    assert y + q * INT64_RANGE == (d + q) * INT64_RANGE + r;
  }

  function TotalSize(s: seq<Listed>): int {
    if s == [] then 0
    else TotalSize(s[..|s| - 1]) + if s[|s| - 1].Object? then s[|s| - 1].size else 0
  }

  predicate IsOldest(s: seq<Listed>, t: Time) {
    (exists i :: 0 <= i < |s| && s[i].Object? && s[i].modified == t)
    && forall i :: 0 <= i < |s| && s[i].Object? ==> t <= s[i].modified
  }

  predicate IsNewest(s: seq<Listed>, t: Time) {
    (exists i :: 0 <= i < |s| && s[i].Object? && s[i].modified == t)
    && forall i :: 0 <= i < |s| && s[i].Object? ==> s[i].modified <= t
  }

  /** All or nothing: a listing that errs anywhere yields no inventory at all. */
  method RunInventoryProbe(listing: seq<Listed>) returns (r: Option<Scan>)
    ensures r.None? <==> ListError in listing
    ensures r.Some? ==>
              && r.value.count == |listing| && r.value.bytes == Wrap(TotalSize(listing))
              && (listing == [] ==> r.value.oldest.None? && r.value.newest.None?)
              && (listing != [] ==> r.value.oldest.Some? && IsOldest(listing, r.value.oldest.value))
              && (listing != [] ==> r.value.newest.Some? && IsNewest(listing, r.value.newest.value))
  {
    var count: nat, bytes := 0, 0;
    var oldest, newest, hasTime := 0, 0, false;
    for i := 0 to |listing|
      invariant ListError !in listing[..i]
      invariant count == i && bytes == Wrap(TotalSize(listing[..i]))
      invariant hasTime <==> i > 0
      invariant hasTime ==> IsOldest(listing[..i], oldest) && IsNewest(listing[..i], newest)
    {
      assert listing[..i + 1][..i] == listing[..i];
      if listing[i].ListError? {
        return None;
      }
      count := count + 1;
      WrapAdds(TotalSize(listing[..i]), listing[i].size);
      bytes := Wrap(bytes + listing[i].size);
      ghost var n := listing[..i + 1];
      assert n[i] == listing[i] && forall k :: 0 <= k < i ==> n[k] == listing[..i][k];
      if !hasTime || listing[i].modified < oldest {
        oldest := listing[i].modified;
      }
      if !hasTime || listing[i].modified > newest {
        newest := listing[i].modified;
      }
      hasTime := true;
    }
    assert listing[..|listing|] == listing;
    return Some(Scan(count, bytes, if hasTime then Some(oldest) else None, if hasTime then Some(newest) else None));
  }

  /**
   The probe's phases: without a client or a first listing nothing else is looked at. An inventory
   without objects therefore means the whole prefix was listed and held nothing.
   */
  method ProbeRepository(clientBuilt: bool, reachable: bool, reason: Reason, secure: bool, securityReason: Reason,
                         lastBackup: Option<Time>, listing: seq<Listed>) returns (p: Probe)
    ensures WellFormedProbe(p)
    ensures p.reachable <==> clientBuilt && reachable
    ensures p.reachableReason == reason
    ensures p.reachable ==> p.secure == secure && p.securityReason == securityReason && p.lastBackup == lastBackup
    ensures p.inventory.Some? <==> p.reachable && ListError !in listing
    ensures p.inventory.Some? ==> p.inventory.value == Inventory(|listing|, Wrap(TotalSize(listing)))
  {
    p := Probe(false, reason, false, reason, None, None);
    if !clientBuilt || !reachable {
      return;
    }
    p := p.(reachable := true);
    p := p.(secure := secure, securityReason := securityReason);
    p := p.(lastBackup := lastBackup);
    var inv := RunInventoryProbe(listing);
    if inv.Some? {
      p := p.(inventory := Some(Inventory(inv.value.count, inv.value.bytes)));
    }
  }
}
