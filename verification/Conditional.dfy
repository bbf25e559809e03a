/**
 The BackupRepositoryConditional controller: derive a discrete state from the repository's status,
 pick the variant for it, apply its manifest, record what was applied.
 */
module Conditional {
  import opened Types

  datatype RepositoryState = StateHealthy | StateEmpty | StateDegraded

  datatype Slot = WhenHealthy | WhenEmpty | WhenDegraded

  datatype ObjectRef = ObjectRef(apiVersion: string, kind: string, namespace: string, name: string)

  datatype Applied = Applied(slot: Slot, ref: ObjectRef, at: Time)

  /** The conditions a pass reports about itself. */
  datatype PassCond = RepositoryFound | SourceFound | ManifestParsed | ChildApplied | Decided

  /** Which slots have a manifest, and the namespace objects default to. */
  datatype ConditionalSpec = ConditionalSpec(variants: set<Slot>, namespace: string)

  datatype Record = Record(
    observed: Option<RepositoryState>,
    decided: Option<Slot>,
    decidedAt: Option<Time>,
    appliedRef: Option<ObjectRef>,
    conditions: map<PassCond, bool>)

  const EMPTY_RECORD := Record(None, None, None, None, map[])

  datatype Lookup = Found(status: Status) | NotFound | LookupError

  /** How far the manifest of the chosen variant gets. */
  datatype Manifest =
    | SourceMissing | ParseFailed | Incomplete | OwnerRefFailed | ApplyRejected
    | ApplyAccepted(obj: ObjectRef)

  /** Emptiness is looked at before health. */
  function DeriveState(st: Status): RepositoryState {
    if st.claimedLastBackup.None? && st.inventory.Some? && st.inventory.value.objectCount == 0 then StateEmpty
    else if Healthy in st.conditions && st.conditions[Healthy].status == IsTrue then StateHealthy
    else StateDegraded
  }

  predicate HealthyUnknown(st: Status) {
    Healthy in st.conditions && st.conditions[Healthy].status == IsUnknown
  }

  function SlotFor(s: RepositoryState): Slot {
    match s case StateHealthy => WhenHealthy case StateEmpty => WhenEmpty case StateDegraded => WhenDegraded
  }

  function Defaulted(obj: ObjectRef, namespace: string): ObjectRef {
    if obj.namespace == "" then obj.(namespace := namespace) else obj
  }

  /** The prior decision is kept while the repository is degraded only for lack of knowledge. */
  predicate Holds(rec: Record, st: Status) {
    DeriveState(st) == StateDegraded && HealthyUnknown(st) && rec.decided.Some?
  }

  /** What a pass applies, if anything: the variant of the derived state, fully accepted. */
  function AppliedBy(spec: ConditionalSpec, rec: Record, found: Lookup, m: Manifest, now: Time): Option<Applied> {
    if && found.Found? && !Holds(rec, found.status)
       && SlotFor(DeriveState(found.status)) in spec.variants && m.ApplyAccepted?
    then Some(Applied(SlotFor(DeriveState(found.status)), Defaulted(m.obj, spec.namespace), now))
    else None
  }

  /** The conditions the manifest stage reports. */
  function ManifestConditions(m: Manifest): map<PassCond, bool> {
    match m
    case SourceMissing => map[SourceFound := false, Decided := false]
    case ParseFailed => map[SourceFound := true, ManifestParsed := false, Decided := false]
    case Incomplete => map[SourceFound := true, ManifestParsed := false, Decided := false]
    case OwnerRefFailed => map[SourceFound := true, ManifestParsed := true, ChildApplied := false, Decided := false]
    case ApplyRejected => map[SourceFound := true, ManifestParsed := true, ChildApplied := false, Decided := false]
    case ApplyAccepted(_) => map[SourceFound := true, ManifestParsed := true, ChildApplied := true, Decided := true]
  }

  function PassConditions(spec: ConditionalSpec, rec: Record, found: Lookup, m: Manifest): map<PassCond, bool> {
    if found.LookupError? then map[]
    else if found.NotFound? then map[RepositoryFound := false, Decided := false]
    else if Holds(rec, found.status) then map[RepositoryFound := true, Decided := true]
    else if SlotFor(DeriveState(found.status)) !in spec.variants then map[RepositoryFound := true, Decided := false]
    else ManifestConditions(m)[RepositoryFound := true]
  }

  /** The record a pass writes: the decision fields move only together, and only with an apply. */
  function RecordAfter(spec: ConditionalSpec, rec: Record, found: Lookup, m: Manifest, now: Time): Record {
    if found.LookupError? then rec
    else
      var a := AppliedBy(spec, rec, found, m, now);
      Record(
        if found.Found? then Some(DeriveState(found.status)) else rec.observed,
        if a.Some? then Some(a.value.slot) else rec.decided,
        if a.Some? then Some(Stored(now)) else rec.decidedAt,
        if a.Some? then Some(a.value.ref) else rec.appliedRef,
        rec.conditions + PassConditions(spec, rec, found, m))
  }

  lemma UpdatesAreMerge(cs: map<PassCond, bool>, b: bool, d: bool)
    ensures cs[RepositoryFound := b][Decided := d] == cs + map[RepositoryFound := b, Decided := d]
  {
  }

  lemma ManifestMerge(cs: map<PassCond, bool>, m: Manifest)
    ensures cs[RepositoryFound := true] + ManifestConditions(m) == cs + ManifestConditions(m)[RepositoryFound := true]
  {
  }

  /** The conditions set one after another are those of the stage a pass got to. */
  lemma StagesAreMerge(cs: map<PassCond, bool>, obj: ObjectRef)
    ensures var missing := cs[SourceFound := false]; var found := cs[SourceFound := true];
            && missing[Decided := false] == cs + ManifestConditions(SourceMissing)
            && found[ManifestParsed := false][Decided := false] == cs + ManifestConditions(ParseFailed)
            && found[ManifestParsed := true][ChildApplied := false][Decided := false] ==
               cs + ManifestConditions(ApplyRejected)
            && found[ManifestParsed := true][ChildApplied := true][Decided := true] ==
               cs + ManifestConditions(ApplyAccepted(obj))
  {
  }

  /** One conditional object, its status updated field by field as a pass goes along. */
  class Reconciler {
    const spec: ConditionalSpec
    var rec: Record

    constructor (spec: ConditionalSpec)
      ensures this.spec == spec && rec == EMPTY_RECORD
    {
      this.spec := spec;
      rec := EMPTY_RECORD;
    }

    method SetCondition(c: PassCond, holds: bool)
      modifies this`rec
      ensures rec == old(rec).(conditions := old(rec).conditions[c := holds])
    {
      rec := rec.(conditions := rec.conditions[c := holds]);
    }

    /** Read, parse, own and apply the manifest of a slot; record the decision if all of it worked. */
    method Materialize(slot: Slot, m: Manifest, now: Time) returns (applied: Option<Applied>)
      modifies this`rec
      ensures applied == if m.ApplyAccepted? then Some(Applied(slot, Defaulted(m.obj, spec.namespace), now)) else None
      ensures rec.conditions == old(rec).conditions + ManifestConditions(m)
      ensures rec == if m.ApplyAccepted?
                     then old(rec).(decided := Some(slot), decidedAt := Some(Stored(now)),
                                    appliedRef := Some(Defaulted(m.obj, spec.namespace)), conditions := rec.conditions)
                     else old(rec).(conditions := rec.conditions)
    {
      applied := None;
      StagesAreMerge(rec.conditions, if m.ApplyAccepted? then m.obj else ObjectRef("", "", "", ""));
      SetCondition(SourceFound, m != SourceMissing);
      if m == SourceMissing {
        SetCondition(Decided, false);
        return;
      }
      SetCondition(ManifestParsed, m != ParseFailed && m != Incomplete);
      if m == ParseFailed || m == Incomplete {
        SetCondition(Decided, false);
        return;
      }
      if m == OwnerRefFailed || m == ApplyRejected {
        SetCondition(ChildApplied, false);
        SetCondition(Decided, false);
        return;
      }
      applied := RecordDecision(slot, Defaulted(m.obj, spec.namespace), now);
    }

    /** What is written once the apply was accepted. */
    method RecordDecision(slot: Slot, ref: ObjectRef, now: Time) returns (applied: Option<Applied>)
      modifies this`rec
      ensures applied == Some(Applied(slot, ref, now))
      ensures rec == old(rec).(decided := Some(slot), decidedAt := Some(Stored(now)), appliedRef := Some(ref),
                               conditions := old(rec).conditions[ChildApplied := true][Decided := true])
    {
      rec := rec.(decided := Some(slot));
      rec := rec.(decidedAt := Some(Stored(now)));
      rec := rec.(appliedRef := Some(ref));
      SetCondition(ChildApplied, true);
      SetCondition(Decided, true);
      applied := Some(Applied(slot, ref, now));
    }

    method Reconcile(found: Lookup, m: Manifest, now: Time) returns (applied: Option<Applied>)
      modifies this`rec
      ensures applied == AppliedBy(spec, old(rec), found, m, now)
      ensures rec == RecordAfter(spec, old(rec), found, m, now)
    {
      applied := None;
      if found.LookupError? {
        return;
      }
      if found.NotFound? {
        SetCondition(RepositoryFound, false);
        SetCondition(Decided, false);
        UpdatesAreMerge(old(rec).conditions, false, false);
        return;
      }
      SetCondition(RepositoryFound, true);
      var state := DeriveState(found.status);
      rec := rec.(observed := Some(state));
      if state == StateDegraded && HealthyUnknown(found.status) && rec.decided.Some? {
        SetCondition(Decided, true);
        UpdatesAreMerge(old(rec).conditions, true, true);
        return;
      }
      var slot := SlotFor(state);
      if slot !in spec.variants {
        SetCondition(Decided, false);
        UpdatesAreMerge(old(rec).conditions, true, false);
        return;
      }
      applied := Materialize(slot, m, now);
      ManifestMerge(old(rec).conditions, m);
    }
  }
}
