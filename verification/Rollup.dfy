/**
 Three-valued rollups: the loop that computes one, and the fact that nesting them loses nothing.
 */
module Rollup {
  import opened Types

  /** Some condition of the requested types is present with the given status. */
  predicate Shows(cs: Conditions, types: seq<CondType>, s: CondStatus) {
    exists t :: t in types && t in cs && cs[t].status == s
  }

  predicate Present(cs: Conditions, types: seq<CondType>) {
    exists t :: t in types && t in cs
  }

  /** Absent types are skipped; False beats Unknown beats True; nothing present is Unknown. */
  function RolledUpCondition(cs: Conditions, types: seq<CondType>): Condition {
    if Shows(cs, types, IsFalse) then Condition(IsFalse, RolledUp)
    else if Shows(cs, types, IsUnknown) || !Present(cs, types) then NOT_YET
    else Condition(IsTrue, ProbeSucceeded)
  }

  method RollupAND(cs: Conditions, types: seq<CondType>) returns (c: Condition)
    ensures c == RolledUpCondition(cs, types)
  {
    var anyFalse, anyUnknown, anyTrue := false, false, false;
    for i := 0 to |types|
      invariant anyFalse <==> Shows(cs, types[..i], IsFalse)
      invariant anyUnknown <==> Shows(cs, types[..i], IsUnknown)
      invariant anyTrue <==> Shows(cs, types[..i], IsTrue)
    {
      var t := types[i];
      assert types[..i + 1] == types[..i] + [t];
      if t in cs {
        match cs[t].status
        case IsFalse => anyFalse := true;
        case IsUnknown => anyUnknown := true;
        case IsTrue => anyTrue := true;
      }
    }
    assert types[..|types|] == types;
    if anyFalse {
      c := Condition(IsFalse, RolledUp);
    } else if anyUnknown {
      c := NOT_YET;
    } else if anyTrue {
      c := Condition(IsTrue, ProbeSucceeded);
    } else {
      c := NOT_YET;
    }
  }

  /** Status and reason of a rollup, told of the conditions present. */
  lemma RollupExactly(cs: Conditions, types: seq<CondType>)
    ensures var c := RolledUpCondition(cs, types);
            && (c == Condition(IsFalse, RolledUp) <==> exists t :: t in types && t in cs && cs[t].status == IsFalse)
            && (c == Condition(IsTrue, ProbeSucceeded) <==>
                  && (exists t :: t in types && t in cs)
                  && (forall t :: t in types && t in cs ==> cs[t].status == IsTrue))
            && (c.status == IsUnknown ==> c.reason == LayerTwoNotYetAvailable)
  {
    var c := RolledUpCondition(cs, types);
    if c.status == IsTrue {
      var t :| t in types && t in cs;
      forall t | t in types && t in cs ensures cs[t].status == IsTrue {
        assert !Shows(cs, types, IsFalse) && !Shows(cs, types, IsUnknown);
      }
    }
  }

  predicate SameTypes(a: seq<CondType>, b: seq<CondType>) {
    (forall t :: t in a ==> t in b) && (forall t :: t in b ==> t in a)
  }

  /** Only which types are listed matters, not their order or how often they are listed. */
  lemma OrderIrrelevant(cs: Conditions, a: seq<CondType>, b: seq<CondType>)
    requires SameTypes(a, b)
    ensures RolledUpCondition(cs, a) == RolledUpCondition(cs, b)
  {
  }

  /**
   Rolling up two rollups gives the same status as rolling up all their leaves at once, in any
   order, as long as each group has a member present (an absent group would count as Unknown).
   */
  lemma NestedIsFlat(cs: Conditions, p: CondType, a: seq<CondType>, v: CondType, b: seq<CondType>,
                     leaves: seq<CondType>)
    requires p in cs && cs[p] == RolledUpCondition(cs, a) && Present(cs, a)
    requires v in cs && cs[v] == RolledUpCondition(cs, b) && Present(cs, b)
    requires SameTypes(leaves, a + b)
    ensures RolledUpCondition(cs, [p, v]).status == RolledUpCondition(cs, leaves).status
  {
    OrderIrrelevant(cs, leaves, a + b);
    forall s ensures Shows(cs, a + b, s) <==> Shows(cs, a, s) || Shows(cs, b, s) {
    }
    assert p in [p, v] && v in [p, v];
    assert Present(cs, a + b);
    forall s ensures Shows(cs, [p, v], s) <==> cs[p].status == s || cs[v].status == s {
    }
  }
}
