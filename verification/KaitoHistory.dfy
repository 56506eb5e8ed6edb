/** Whole histories of one KAITO Workspace: reconciles with changing desired objects, rejected writes,
    an operator writing its own fields, and removals. */
module KaitoHistory {
  import opened JsonValues
  import opened KaitoMerge
  import opened KaitoOperator
  import opened KaitoRuns

  datatype Event =
    | Reconcile(resource: Workspace, accepted: bool)
    | OperatorWrite(after: Workspace)
    | Removed

  function Step(stored: Option<Workspace>, event: Event, uid: string): Option<Workspace> {
    match event
    case Reconcile(resource, accepted) => CreateOrUpdate(stored, resource, uid, true, accepted).0
    case OperatorWrite(after) => if stored.Some? then Some(after) else None
    case Removed => None
  }

  function StateAfter(events: seq<Event>, uid: string): Option<Workspace> {
    if events == [] then None else Step(StateAfter(events[..|events| - 1], uid), events[|events| - 1], uid)
  }

  /** What the transformer renders: the two sections, as maps or not at all, owned by the deployment. */
  predicate Rendered(w: Workspace, uid: string) {
    WellShaped(w) && w.root.Keys <= {"resource", "inference"} && uid in w.owners
  }

  ghost function Roots(family: set<Workspace>): set<Fields> {
    set w: Workspace | w in family :: w.root
  }

  ghost function LabelSets(family: set<Workspace>): set<StringMap> {
    set w: Workspace | w in family :: w.labels
  }

  ghost function AnnotationSets(family: set<Workspace>): set<StringMap> {
    set w: Workspace | w in family :: w.annotations
  }

  ghost predicate NamedString(family: set<StringMap>, key: string) {
    exists s: StringMap <- family :: key in s
  }

  ghost function StringsOutside(live: StringMap, family: set<StringMap>): StringMap {
    map k | k in live && !NamedString(family, k) :: live[k]
  }

  ghost predicate StringsEdit(before: StringMap, after: StringMap, family: set<StringMap>) {
    forall k {:trigger NamedString(family, k)} | NamedString(family, k) ::
      (k in before <==> k in after) && (k in before ==> before[k] == after[k])
  }

  /** The operator's writes: only keys that no desired object of the history names. */
  ghost predicate OperatorMayWrite(before: Workspace, after: Workspace, family: set<Workspace>, uid: string) {
    && OperatorEdit(before.root, after.root, Roots(family)) && WellShaped(after)
    && StringsEdit(before.labels, after.labels, LabelSets(family))
    && StringsEdit(before.annotations, after.annotations, AnnotationSets(family))
    && after.record == before.record && uid in after.owners
  }

  ghost predicate Allowed(events: seq<Event>, family: set<Workspace>, uid: string) {
    events != [] ==>
      var prefix, last := events[..|events| - 1], events[|events| - 1];
      && Allowed(prefix, family, uid)
      && match last
         case Reconcile(resource, _) => resource in family && Rendered(resource, uid)
         case OperatorWrite(after) =>
           var stored := StateAfter(prefix, uid);
           stored.Some? ==> OperatorMayWrite(stored.value, after, family, uid)
         case Removed => true
  }

  /** The desired object plus the operator's share of what was stored, in every part of the Workspace. */
  ghost function DesiredPlusOperator(stored: Workspace, resource: Workspace, family: set<Workspace>): Workspace {
    Workspace(stored.owners,
              Overlay(OperatorPart(stored.root, Roots(family)), resource.root),
              StringsOutside(stored.labels, LabelSets(family)) + resource.labels,
              StringsOutside(stored.annotations, AnnotationSets(family)) + resource.annotations,
              Some(RecordOf(resource)))
  }

  ghost predicate InStep(stored: Workspace, applied: Workspace, family: set<Workspace>, uid: string) {
    && applied in family && Rendered(applied, uid)
    && uid in stored.owners && WellShaped(stored)
    && stored == DesiredPlusOperator(stored, applied, family)
  }

  /** The two top-level merges are one merge of the roots. */
  lemma RootMerge(live: Fields, previous: Fields, desired: Fields)
    requires MapOrAbsent(live, "resource") && MapOrAbsent(previous, "resource") && MapOrAbsent(desired, "resource")
    requires MapOrAbsent(live, "inference") && MapOrAbsent(previous, "inference") && MapOrAbsent(desired, "inference")
    requires previous.Keys <= {"resource", "inference"} && desired.Keys <= {"resource", "inference"}
    ensures var step := MergeTopLevelMap(live, desired, FoundFields(NestedMap(previous, "resource")), "resource");
            && step.Some? && MapOrAbsent(step.value, "inference")
            && MergeTopLevelMap(step.value, desired, FoundFields(NestedMap(previous, "inference")), "inference")
               == Some(MergeManagedMap(live, desired, Some(previous), []))
  {
    var merged := MergeManagedMap(live, desired, Some(previous), []);
    var step := MergeTopLevelMap(live, desired, FoundFields(NestedMap(previous, "resource")), "resource").value;
    OnlyThatSectionChanges(live, desired, FoundFields(NestedMap(previous, "resource")), "resource");
    SectionOfMerge(live, live, previous, desired, "resource");
    assert NestedMap(step, "inference") == NestedMap(live, "inference");
    var root := MergeTopLevelMap(step, desired, FoundFields(NestedMap(previous, "inference")), "inference").value;
    OnlyThatSectionChanges(step, desired, FoundFields(NestedMap(previous, "inference")), "inference");
    SectionOfMerge(live, step, previous, desired, "inference");
    assert SameOutside(live, merged, {"resource", "inference"});
    RootsAgree(live, step, root, merged);
  }

  ghost predicate SameOutside(before: Fields, after: Fields, fields: set<string>) {
    forall k | k !in fields :: (k in before <==> k in after) && (k in before ==> before[k] == after[k])
  }

  lemma SectionOfMerge(live: Fields, target: Fields, previous: Fields, desired: Fields, field: string)
    requires MapOrAbsent(live, field) && MapOrAbsent(previous, field) && MapOrAbsent(desired, field)
    requires NestedMap(target, field) == NestedMap(live, field)
    ensures var merged := MergeManagedMap(live, desired, Some(previous), []);
            var section := MergeTopLevelMap(target, desired, FoundFields(NestedMap(previous, field)), field).value;
            NestedMap(merged, field) == NestedMap(section, field)
            && MapOrAbsent(merged, field)
  {
    var merged := MergeManagedMap(live, desired, Some(previous), []);
    assert [] + [field] == [field];
    if field in desired {
      assert merged[field] == MergedValue(live, desired, Some(previous), [], field);
      MergeIntoEmpty(desired[field].fields, FoundFields(NestedMap(previous, field)), [field]);
    }
  }

  lemma RootsAgree(live: Fields, step: Fields, root: Fields, merged: Fields)
    requires SameElsewhere(live, step, "resource") && SameElsewhere(step, root, "inference")
    requires SameOutside(live, merged, {"resource", "inference"})
    requires NestedMap(step, "resource") == NestedMap(merged, "resource") && MapOrAbsent(merged, "resource")
    requires NestedMap(root, "inference") == NestedMap(merged, "inference") && MapOrAbsent(merged, "inference")
    ensures root == merged
  {
    forall k | k in root || k in merged
      ensures k in root && k in merged && root[k] == merged[k]
    {
      if k == "resource" {
        assert NestedMap(root, k) == NestedMap(step, k) == NestedMap(merged, k);
      } else if k == "inference" {
        assert NestedMap(root, k) == NestedMap(merged, k);
      } else {
        assert k !in {"resource", "inference"};
      }
    }
  }

  lemma StringsMergeKeepsOutside(live: StringMap, previous: StringMap, desired: StringMap, family: set<StringMap>)
    requires previous in family && desired in family
    requires live == StringsOutside(live, family) + previous
    ensures MergeManagedStringMap(live, desired, Some(previous)) == StringsOutside(live, family) + desired
    ensures StringsOutside(StringsOutside(live, family) + desired, family) == StringsOutside(live, family)
  {
    var next := StringsOutside(live, family) + desired;
    assert forall k | k in desired || k in previous :: NamedString(family, k);
    assert forall k | k in live && NamedString(family, k) :: k in previous;
    assert StringsOutside(next, family) == StringsOutside(live, family);
    assert MergeManagedStringMap(live, desired, Some(previous)) == next;
  }

  lemma StringsEditKeepsOutside(before: StringMap, after: StringMap, applied: StringMap, family: set<StringMap>)
    requires applied in family && before == StringsOutside(before, family) + applied
    requires StringsEdit(before, after, family)
    ensures after == StringsOutside(after, family) + applied
  {
    var expected := StringsOutside(after, family) + applied;
    forall k | k in after || k in expected
      ensures k in after && k in expected && after[k] == expected[k]
    {
      if k in applied {
        assert NamedString(family, k);
      }
    }
  }

  /** What an update of a Workspace in step would store. */
  lemma UpdateInStep(stored: Workspace, applied: Workspace, resource: Workspace, family: set<Workspace>, uid: string)
    requires InStep(stored, applied, family, uid)
    requires resource in family && Rendered(resource, uid)
    ensures var next := DesiredPlusOperator(stored, resource, family);
            && UpdatedFields(stored, WithRecord(resource)) == Some(next)
            && InStep(next, resource, family, uid)
            && OperatorPart(next.root, Roots(family)) == OperatorPart(stored.root, Roots(family))
  {
    assert applied.root in Roots(family) && resource.root in Roots(family);
    assert applied.labels in LabelSets(family) && resource.labels in LabelSets(family);
    assert applied.annotations in AnnotationSets(family) && resource.annotations in AnnotationSets(family);
    RootMerge(stored.root, applied.root, resource.root);
    MergeKeepsOperatorPart(stored.root, applied.root, resource.root, Roots(family), []);
    OverlayKeepsOperatorPart(stored.root, applied.root, resource.root, Roots(family));
    StringsMergeKeepsOutside(stored.labels, applied.labels, resource.labels, LabelSets(family));
    StringsMergeKeepsOutside(stored.annotations, applied.annotations, resource.annotations, AnnotationSets(family));
    SectionsStayMaps(stored, resource, family);
  }

  /** When nothing needs writing, the Workspace already is what an update would store. */
  lemma QuietInStep(stored: Workspace, applied: Workspace, resource: Workspace, family: set<Workspace>, uid: string)
    requires InStep(stored, applied, family, uid)
    requires Rendered(resource, uid)
    requires NothingToWrite(WithRecord(resource), stored)
    ensures UpdatedFields(stored, WithRecord(resource)) == Some(stored)
  {
    NothingToWriteIffUpdateIsIdentity(resource, stored);
    assert NestedMap(applied.root, "resource") == NestedMap(resource.root, "resource") by {
      assert RecordOf(applied).resource == RecordOf(resource).resource;
    }
    assert NestedMap(applied.root, "inference") == NestedMap(resource.root, "inference") by {
      assert RecordOf(applied).inference == RecordOf(resource).inference;
    }
  }

  /** One reconcile of a Workspace that is in step with an earlier desired object. */
  lemma ReconcileInStep(stored: Workspace, applied: Workspace, resource: Workspace, family: set<Workspace>, uid: string, accepted: bool)
    requires InStep(stored, applied, family, uid)
    requires resource in family && Rendered(resource, uid)
    ensures var (after, outcome) := CreateOrUpdate(Some(stored), resource, uid, true, accepted);
            var next := DesiredPlusOperator(stored, resource, family);
            && outcome in {Updated, Unchanged, Rejected}
            && (outcome == Rejected ==> !accepted && after == Some(stored))
            && (outcome != Rejected ==> after == Some(next))
            && InStep(next, resource, family, uid)
            && OperatorPart(next.root, Roots(family)) == OperatorPart(stored.root, Roots(family))
  {
    UpdateInStep(stored, applied, resource, family, uid);
    if NothingToWrite(WithRecord(resource), stored) {
      QuietInStep(stored, applied, resource, family, uid);
    }
  }

  lemma SectionsStayMaps(stored: Workspace, resource: Workspace, family: set<Workspace>)
    requires WellShaped(stored) && WellShaped(resource)
    ensures WellShaped(DesiredPlusOperator(stored, resource, family))
  {
  }

  /** A created object is in step with what was asked for. */
  lemma CreatedInStep(resource: Workspace, family: set<Workspace>, uid: string)
    requires resource in family && Rendered(resource, uid)
    ensures InStep(WithRecord(resource), resource, family, uid)
  {
    assert resource.root in Roots(family);
    OwnShareVanishes(resource.root, Roots(family));
    OwnStringsVanish(resource.labels, LabelSets(family));
    OwnStringsVanish(resource.annotations, AnnotationSets(family));
  }

  lemma OwnStringsVanish(desired: StringMap, family: set<StringMap>)
    requires desired in family
    ensures StringsOutside(desired, family) + desired == desired
  {
  }

  /** A desired object holds nothing of the operator's. */
  lemma {:induction false} OwnShareVanishes(desired: Fields, family: set<Fields>)
    requires desired in family
    ensures Overlay(OperatorPart(desired, family), desired) == desired
    decreases Obj(desired)
  {
    var own := OperatorPart(desired, family);
    forall k | k in own
      ensures k in desired && Overlay(own, desired)[k] == desired[k]
    {
      assert Named(family, k);
      OwnShareVanishes(desired[k].fields, Under(family, k));
    }
  }

  /** Every reachable stored Workspace is exactly some applied desired object plus the operator's fields. */
  lemma {:induction false} AlwaysInStep(events: seq<Event>, family: set<Workspace>, uid: string)
    requires Allowed(events, family, uid)
    ensures var state := StateAfter(events, uid);
            state.Some? ==> exists applied :: InStep(state.value, applied, family, uid)
    decreases |events|
  {
    if events != [] {
      var prefix, last := events[..|events| - 1], events[|events| - 1];
      AlwaysInStep(prefix, family, uid);
      var before, after := StateAfter(prefix, uid), StateAfter(events, uid);
      if before.None? {
        if last.Reconcile? {
          CreatedInStep(last.resource, family, uid);
        }
      } else {
        var applied :| InStep(before.value, applied, family, uid);
        match last
        case Reconcile(resource, accepted) =>
          ReconcileInStep(before.value, applied, resource, family, uid, accepted);
          assert InStep(DesiredPlusOperator(before.value, resource, family), resource, family, uid);
        case OperatorWrite(edited) =>
          assert applied.root in Roots(family) && applied.labels in LabelSets(family) && applied.annotations in AnnotationSets(family);
          EditKeepsFaithful(before.value.root, edited.root, applied.root, Roots(family));
          StringsEditKeepsOutside(before.value.labels, edited.labels, applied.labels, LabelSets(family));
          StringsEditKeepsOutside(before.value.annotations, edited.annotations, applied.annotations, AnnotationSets(family));
          assert InStep(edited, applied, family, uid);
        case Removed =>
      }
    }
  }

  /** History independence: whatever happened before, a reconcile that is not rejected leaves exactly the
      latest desired fields plus the operator's, so nothing written earlier and dropped since survives,
      and the operator's share is what it was. */
  lemma HistoryIndependence(events: seq<Event>, resource: Workspace, accepted: bool, family: set<Workspace>, uid: string)
    requires Allowed(events + [Reconcile(resource, accepted)], family, uid)
    ensures var before := StateAfter(events, uid);
            var (after, outcome) := CreateOrUpdate(before, resource, uid, true, accepted);
            && StateAfter(events + [Reconcile(resource, accepted)], uid) == after
            && (outcome == Rejected ==> !accepted && after == before)
            && (outcome != Rejected ==>
                  && after.Some?
                  && after.value == (if before.Some? then DesiredPlusOperator(before.value, resource, family) else WithRecord(resource))
                  && (before.Some? ==> OperatorPart(after.value.root, Roots(family)) == OperatorPart(before.value.root, Roots(family))))
  {
    var all := events + [Reconcile(resource, accepted)];
    assert all[..|all| - 1] == events;
    AlwaysInStep(events, family, uid);
    var before := StateAfter(events, uid);
    if before.Some? {
      var applied :| InStep(before.value, applied, family, uid);
      ReconcileInStep(before.value, applied, resource, family, uid, accepted);
    }
  }

  /** Over any passes, with any desired objects and any answers, a Workspace that is not owned stays as it is until
      someone else changes it. */
  lemma {:induction false} ForeignWorkspaceStays(events: seq<Event>, passes: seq<Event>, uid: string)
    requires StateAfter(events, uid).Some? && uid !in StateAfter(events, uid).value.owners
    requires forall pass <- passes :: pass.Reconcile?
    ensures StateAfter(events + passes, uid) == StateAfter(events, uid)
    decreases |passes|
  {
    if passes == [] {
      assert events + passes == events;
    } else {
      var prefix, all := passes[..|passes| - 1], events + passes;
      assert all[..|all| - 1] == events + prefix && all[|all| - 1] == passes[|passes| - 1];
      assert passes[|passes| - 1] in passes && forall pass <- prefix :: pass in passes;
      ForeignWorkspaceStays(events, prefix, uid);
      var last := passes[|passes| - 1];
      ForeignWorkspaceIsUntouched(StateAfter(events, uid).value, last.resource, uid, true, last.accepted);
    }
  }
}
