/** createOrUpdateResource of the KAITO provider and whole runs of it, interleaved with an operator. */
module KaitoRuns {
  import opened JsonValues
  import opened KaitoMerge
  import opened KaitoOperator

  /** The last-applied annotation once decoded. A missing annotation or an unreadable part is None. */
  datatype Record = Record(
    resource: Option<Fields>, inference: Option<Fields>,
    labels: Option<StringMap>, annotations: Option<StringMap>)

  /** A Workspace: its root fields, its metadata without the last-applied annotation, and that annotation. */
  datatype Workspace = Workspace(
    owners: set<string>, root: Fields, labels: StringMap, annotations: StringMap, record: Option<Record>)

  datatype Nested = Absent | NotAMap | Found(fields: Fields)

  datatype Outcome = Created | Updated | Unchanged | Rejected | OwnershipConflict | UnreadableField | ReadFailed

  function NestedMap(root: Fields, field: string): Nested {
    if field !in root then Absent else if root[field].Obj? then Found(root[field].fields) else NotAMap
  }

  function FoundFields(nested: Nested): Option<Fields> {
    if nested.Found? then Some(nested.fields) else None
  }

  function FieldsOrEmpty(nested: Nested): Fields {
    if nested.Found? then nested.fields else map[]
  }

  /** setLastAppliedManagedFields: what a desired object records about itself. */
  function RecordOf(w: Workspace): Record {
    Record(FoundFields(NestedMap(w.root, "resource")), FoundFields(NestedMap(w.root, "inference")),
           Some(w.labels), Some(w.annotations))
  }

  function WithRecord(w: Workspace): Workspace {
    w.(record := Some(RecordOf(w)))
  }

  /** lastAppliedManagedFields. */
  function LastApplied(w: Workspace): Record {
    if w.record.Some? then w.record.value else Record(None, None, None, None)
  }

  predicate DropsString(lastApplied: Option<StringMap>, key: string) {
    lastApplied.Some? && key in lastApplied.value
  }

  function MergeManagedStringMap(existing: StringMap, desired: StringMap, lastApplied: Option<StringMap>): StringMap {
    map k | k in existing.Keys + desired.Keys && (k in desired || !DropsString(lastApplied, k)) ::
      if k in desired then desired[k] else existing[k]
  }

  /** mergeManagedStringMap: copy, overwrite, then delete, over maps in arbitrary order. */
  method MergeStrings(existing: StringMap, desired: StringMap, lastApplied: Option<StringMap>) returns (merged: StringMap)
    ensures merged == MergeManagedStringMap(existing, desired, lastApplied)
  {
    var staged := existing;
    var todo := desired.Keys;
    while todo != {}
      invariant todo <= desired.Keys
      invariant staged.Keys == existing.Keys + (desired.Keys - todo)
      invariant forall k | k in staged :: staged[k] == if k in desired && k !in todo then desired[k] else existing[k]
    {
      var key :| key in todo;
      staged := staged[key := desired[key]];
      todo := todo - {key};
    }
    merged := DeleteExtraStrings(staged, desired, lastApplied);
  }

  method DeleteExtraStrings(staged: StringMap, desired: StringMap, lastApplied: Option<StringMap>) returns (merged: StringMap)
    ensures merged == map k | k in staged && (k in desired || !DropsString(lastApplied, k)) :: staged[k]
  {
    merged := staged;
    var todo := merged.Keys;
    while todo != {}
      invariant todo <= staged.Keys
      invariant forall k :: k in merged <==> k in staged && (k in todo || k in desired || !DropsString(lastApplied, k))
      invariant forall k | k in merged :: merged[k] == staged[k]
    {
      var key :| key in todo;
      if key !in desired && DropsString(lastApplied, key) {
        merged := merged - {key};
      }
      todo := todo - {key};
    }
  }

  predicate ManagedStringMapMatches(desired: StringMap, existing: StringMap, lastApplied: Option<StringMap>) {
    && (forall k <- desired :: k in existing && existing[k] == desired[k])
    && (forall k <- existing :: k !in desired ==> !DropsString(lastApplied, k))
  }

  /** mergeManagedTopLevelMap: None is the error for a field that is not a map. */
  function MergeTopLevelMap(target: Fields, desired: Fields, lastApplied: Option<Fields>, field: string): Option<Fields> {
    match (NestedMap(desired, field), NestedMap(target, field))
    case (NotAMap, _) => None
    case (_, NotAMap) => None
    case (Found(wanted), live) => Some(target[field := Obj(MergeManagedMap(FieldsOrEmpty(live), wanted, lastApplied, [field]))])
    case (Absent, _) => Some(if lastApplied.Some? then target - {field} else target)
  }

  /** updateManagedWorkspaceFields, up to the patch that stores its result. */
  function UpdatedFields(existing: Workspace, desired: Workspace): Option<Workspace> {
    var last := LastApplied(existing);
    match MergeTopLevelMap(existing.root, desired.root, last.resource, "resource")
    case None => None
    case Some(step) =>
      match MergeTopLevelMap(step, desired.root, last.inference, "inference")
      case None => None
      case Some(root) =>
        Some(Workspace(existing.owners, root,
                       MergeManagedStringMap(existing.labels, desired.labels, last.labels),
                       MergeManagedStringMap(existing.annotations, desired.annotations, last.annotations),
                       desired.record))
  }

  predicate FieldMatches(desired: Workspace, existing: Workspace, lastApplied: Option<Fields>, field: string) {
    ManagedFieldsMatch(FieldsOrEmpty(NestedMap(desired.root, field)), FieldsOrEmpty(NestedMap(existing.root, field)), lastApplied, [field])
  }

  /** The three comparisons that decide whether a write is needed. */
  predicate NothingToWrite(desired: Workspace, existing: Workspace) {
    var last := LastApplied(existing);
    && FieldMatches(desired, existing, last.resource, "resource")
    && FieldMatches(desired, existing, last.inference, "inference")
    && ManagedStringMapMatches(desired.labels, existing.labels, last.labels)
    && ManagedStringMapMatches(desired.annotations, existing.annotations, last.annotations)
    && existing.record == desired.record
  }

  /** createOrUpdateResource against an API server whose read and write answers are parameters. */
  function CreateOrUpdate(stored: Option<Workspace>, resource: Workspace, uid: string, readable: bool, accepted: bool)
    : (Option<Workspace>, Outcome)
  {
    var desired := WithRecord(resource);
    if !readable then (stored, ReadFailed)
    else if stored.None? then
      if accepted then (Some(desired), Created) else (None, Rejected)
    else if uid !in stored.value.owners then (stored, OwnershipConflict)
    else if NothingToWrite(desired, stored.value) then (stored, Unchanged)
    else
      match UpdatedFields(stored.value, desired)
      case None => (stored, UnreadableField)
      case Some(updated) => if accepted then (Some(updated), Updated) else (stored, Rejected)
  }

  /** The API server's copy of the Workspace. */
  class WorkspaceStore {
    var stored: Option<Workspace>

    constructor ()
      ensures stored == None
    {
      stored := None;
    }

    method CreateOrUpdateResource(resource: Workspace, uid: string, readable: bool, accepted: bool) returns (outcome: Outcome)
      modifies this
      ensures (stored, outcome) == CreateOrUpdate(old(stored), resource, uid, readable, accepted)
    {
      var desired := WithRecord(resource);
      if !readable {
        return ReadFailed;
      }
      if stored.None? {
        if !accepted {
          return Rejected;
        }
        stored := Some(desired);
        return Created;
      }
      var existing := stored.value;
      if uid !in existing.owners {
        return OwnershipConflict;
      }
      if NothingToWrite(desired, existing) {
        return Unchanged;
      }
      var last := LastApplied(existing);
      var updated := existing.root;
      var ok;
      ok, updated := MergeTopLevel(updated, desired.root, last.resource, "resource");
      if ok {
        ok, updated := MergeTopLevel(updated, desired.root, last.inference, "inference");
      }
      if !ok {
        return UnreadableField;
      }
      var labels := MergeStrings(existing.labels, desired.labels, last.labels);
      var annotations := MergeStrings(existing.annotations, desired.annotations, last.annotations);
      if !accepted {
        return Rejected;
      }
      stored := Some(Workspace(existing.owners, updated, labels, annotations, desired.record));
      return Updated;
    }
  }

  method MergeTopLevel(target: Fields, desired: Fields, lastApplied: Option<Fields>, field: string)
    returns (ok: bool, merged: Fields)
    ensures MergeTopLevelMap(target, desired, lastApplied, field) == if ok then Some(merged) else None
  {
    merged := target;
    var wanted, live := NestedMap(desired, field), NestedMap(target, field);
    if wanted.NotAMap? || live.NotAMap? {
      return false, merged;
    }
    if wanted.Found? {
      var fields := MergeManaged(FieldsOrEmpty(live), wanted.fields, lastApplied, [field]);
      merged := merged[field := Obj(fields)];
    } else if lastApplied.Some? {
      merged := merged - {field};
    }
    return true, merged;
  }

  // ----- One pass -----

  /** A Workspace of another owner is never written, whatever is desired. */
  lemma ForeignWorkspaceIsUntouched(live: Workspace, resource: Workspace, uid: string, readable: bool, accepted: bool)
    requires uid !in live.owners
    ensures CreateOrUpdate(Some(live), resource, uid, readable, accepted)
         == (Some(live), if readable then OwnershipConflict else ReadFailed)
  {
  }

  /** The stored Workspace changes only in a pass that reports it; a created one is the desired object with its own
      record, and a refused write is reported as such. */
  lemma PassReportsItsWrite(stored: Option<Workspace>, resource: Workspace, uid: string, readable: bool, accepted: bool)
    ensures var (after, outcome) := CreateOrUpdate(stored, resource, uid, readable, accepted);
            && (outcome !in {Created, Updated} ==> after == stored)
            && (outcome == ReadFailed <==> !readable)
            && (outcome == Created <==> readable && stored.None? && accepted)
            && (outcome == Created ==> after == Some(resource.(record := Some(RecordOf(resource)))))
            && (outcome == Rejected ==> !accepted)
            && (outcome == Updated ==> accepted && stored.Some? && uid in stored.value.owners)
            && (readable && stored.None? && !accepted ==> outcome == Rejected)
  {
  }

  /** What an update keeps and replaces, for any drift of an object whose sections are maps or absent: owners and every
      root field but the two sections stay, the new record is stored, labels and annotations lose exactly what was
      recorded and is no longer desired, and the sections follow their own record. */
  lemma UpdateExactly(existing: Workspace, resource: Workspace)
    requires WellShaped(existing) && WellShaped(resource)
    ensures var desired, last := WithRecord(resource), LastApplied(existing);
            var updated := UpdatedFields(existing, desired);
            && updated.Some?
            && updated.value.owners == existing.owners && updated.value.record == Some(RecordOf(resource))
            && StringsFollow(existing.labels, resource.labels, last.labels, updated.value.labels)
            && StringsFollow(existing.annotations, resource.annotations, last.annotations, updated.value.annotations)
            && SectionFollows(existing.root, resource.root, last.resource, "resource", updated.value.root)
            && SectionFollows(existing.root, resource.root, last.inference, "inference", updated.value.root)
            && OtherFieldsStay(existing.root, updated.value.root)
  {
    var last := LastApplied(existing);
    RootIsMerged(existing.root, resource.root, last.resource, last.inference);
    StringsAreMerged(existing.labels, resource.labels, last.labels);
    StringsAreMerged(existing.annotations, resource.annotations, last.annotations);
  }

  lemma RootIsMerged(live: Fields, desired: Fields, resource: Option<Fields>, inference: Option<Fields>)
    requires MapOrAbsent(live, "resource") && MapOrAbsent(live, "inference")
    requires MapOrAbsent(desired, "resource") && MapOrAbsent(desired, "inference")
    ensures var step := MergeTopLevelMap(live, desired, resource, "resource");
            step.Some? &&
            var root := MergeTopLevelMap(step.value, desired, inference, "inference");
            && root.Some?
            && SectionFollows(live, desired, resource, "resource", root.value)
            && SectionFollows(live, desired, inference, "inference", root.value)
            && OtherFieldsStay(live, root.value)
  {
    SectionIsMerged(live, desired, resource, "resource");
    var step := MergeTopLevelMap(live, desired, resource, "resource").value;
    assert NestedMap(step, "inference") == NestedMap(live, "inference");
    SectionIsMerged(step, desired, inference, "inference");
  }

  predicate SameField(a: Fields, b: Fields, k: string) {
    (k in a <==> k in b) && (k in a ==> a[k] == b[k])
  }

  ghost predicate OtherFieldsStay(live: Fields, merged: Fields) {
    forall k | k != "resource" && k != "inference" :: SameField(live, merged, k)
  }

  lemma StringsAreMerged(live: StringMap, desired: StringMap, last: Option<StringMap>)
    ensures StringsFollow(live, desired, last, MergeManagedStringMap(live, desired, last))
  {
  }

  lemma SectionIsMerged(live: Fields, desired: Fields, last: Option<Fields>, field: string)
    ensures var merged := MergeTopLevelMap(live, desired, last, field);
            && (merged.Some? <==> (field in live ==> live[field].Obj?) && (field in desired ==> desired[field].Obj?))
            && (merged.Some? ==> SectionFollows(live, desired, last, field, merged.value))
            && (merged.Some? ==> forall k | k != field :: SameField(live, merged.value, k))
  {
  }

  predicate StringsFollow(live: StringMap, desired: StringMap, last: Option<StringMap>, merged: StringMap) {
    && merged.Keys == desired.Keys + (live.Keys - if last.Some? then last.value.Keys else {})
    && forall k <- merged :: merged[k] == if k in desired then desired[k] else live[k]
  }

  predicate SectionFollows(live: Fields, desired: Fields, last: Option<Fields>, field: string, merged: Fields) {
    if field in desired then
      field in merged && desired[field].Obj?
      && merged[field] == Obj(MergeManagedMap(FieldsOrEmpty(NestedMap(live, field)), desired[field].fields, last, [field]))
    else if last.Some? then field !in merged
    else SameField(live, merged, field)
  }

  /** A Workspace without a record ends with exactly the desired node selector, whatever labels it selected before. */
  lemma UnrecordedSelectorIsReplaced(existing: Workspace, resource: Workspace, uid: string)
    requires existing.record.None? && uid in existing.owners && WellShaped(existing) && WellShaped(resource)
    requires var selector := Lookup(Obj(resource.root), ["resource", "labelSelector", "matchLabels"]);
             selector.Some? && selector.value.Obj? && forall k <- selector.value.fields :: !selector.value.fields[k].Obj?
    ensures var (after, outcome) := CreateOrUpdate(Some(existing), resource, uid, true, true);
            && outcome == Updated && after.Some?
            && Lookup(Obj(after.value.root), ["resource", "labelSelector", "matchLabels"])
               == Lookup(Obj(resource.root), ["resource", "labelSelector", "matchLabels"])
  {
    var at := ["labelSelector", "matchLabels"];
    var full := ["resource", "labelSelector", "matchLabels"];
    assert full[0] == "resource" && full[1..] == at && ["resource"] + at == full;
    UpdateExactly(existing, resource);
    var live, wanted := FieldsOrEmpty(NestedMap(existing.root, "resource")), resource.root["resource"].fields;
    assert Lookup(Obj(resource.root), full) == Lookup(Obj(wanted), at);
    MergeCommutesWithLookup(live, wanted, None, ["resource"], at);
    assert at[1..] == ["matchLabels"] && at[1..][1..] == [];
    assert LastAppliedAt(None, at) == None by {
      assert LastAppliedAt(None, at[1..]) == None;
    }
    var selector := FieldsAt(wanted, at);
    MergedKeysExactly(FieldsAt(live, at), selector, None, full);
    var merged := MergeManagedMap(FieldsAt(live, at), selector, None, full);
    assert forall k | k in selector :: merged[k] == MergedValue(FieldsAt(live, at), selector, None, full, k);
    assert merged == selector;
    var after := UpdatedFields(existing, WithRecord(resource)).value;
    assert Lookup(Obj(after.root), full) == Lookup(after.root["resource"], at);
  }

  // ----- One pass after another -----

  predicate MapOrAbsent(root: Fields, field: string) {
    !NestedMap(root, field).NotAMap?
  }

  predicate WellShaped(w: Workspace) {
    MapOrAbsent(w.root, "resource") && MapOrAbsent(w.root, "inference")
  }

  /** A merge followed by the same merge, with the record the first one left, changes nothing. */
  lemma {:induction false} MergeSettles(existing: Fields, desired: Fields, lastApplied: Option<Fields>, path: Path)
    ensures var merged := MergeManagedMap(existing, desired, lastApplied, path);
            MergeManagedMap(merged, desired, Some(desired), path) == merged
    decreases Obj(desired)
  {
    var merged := MergeManagedMap(existing, desired, lastApplied, path);
    var again := MergeManagedMap(merged, desired, Some(desired), path);
    forall k | k in desired
      ensures again[k] == merged[k]
    {
      assert merged[k] == MergedValue(existing, desired, lastApplied, path, k);
      assert again[k] == MergedValue(merged, desired, Some(desired), path, k);
      if desired[k].Obj? {
        if k in existing && existing[k].Obj? {
          MergeSettles(existing[k].fields, desired[k].fields, NestedLastApplied(lastApplied, k), path + [k]);
        } else {
          MergeReplacesOwnWrite(desired[k].fields, desired[k].fields, path + [k]);
        }
      }
    }
  }

  lemma StringsMatchIffIdentity(existing: StringMap, desired: StringMap, lastApplied: Option<StringMap>)
    ensures ManagedStringMapMatches(desired, existing, lastApplied)
       <==> MergeManagedStringMap(existing, desired, lastApplied) == existing
  {
    var merged := MergeManagedStringMap(existing, desired, lastApplied);
    if merged == existing {
      assert forall k | k in desired :: k in merged;
      assert forall k | k in existing :: k in merged;
    }
  }

  /** The pass after a successful create or update with the same desired object makes no write. */
  lemma QuietAfterWrite(stored: Option<Workspace>, resource: Workspace, uid: string)
    requires WellShaped(resource) && uid in resource.owners
    requires CreateOrUpdate(stored, resource, uid, true, true).1 in {Created, Updated, Unchanged}
    ensures var after := CreateOrUpdate(stored, resource, uid, true, true).0;
            forall accepted :: CreateOrUpdate(after, resource, uid, true, accepted) == (after, Unchanged)
  {
    var desired := WithRecord(resource);
    var (after, outcome) := CreateOrUpdate(stored, resource, uid, true, true);
    if outcome == Created {
      SameObjectMatches(desired);
    } else if outcome == Updated {
      UpdatedObjectMatches(stored.value, desired);
    }
  }

  lemma SameObjectMatches(desired: Workspace)
    requires desired.record == Some(RecordOf(desired)) && WellShaped(desired)
    ensures NothingToWrite(desired, desired)
  {
    forall field | field in ["resource", "inference"]
      ensures FieldMatches(desired, desired, FoundFields(NestedMap(desired.root, field)), field)
    {
      var fields := FieldsOrEmpty(NestedMap(desired.root, field));
      MergeReplacesOwnWrite(fields, fields, [field]);
      MatchIffMergeIsIdentity(fields, fields, Some(fields), [field]);
      MatchIffMergeIsIdentity(fields, fields, None, [field]);
    }
    assert "resource" in ["resource", "inference"] && "inference" in ["resource", "inference"];
  }

  lemma UpdatedObjectMatches(existing: Workspace, desired: Workspace)
    requires desired.record == Some(RecordOf(desired)) && WellShaped(desired)
    requires UpdatedFields(existing, desired).Some?
    ensures NothingToWrite(desired, UpdatedFields(existing, desired).value)
  {
    var updated := UpdatedFields(existing, desired).value;
    var last := LastApplied(existing);
    UpdatedFieldMatches(existing.root, desired.root, last.resource, "resource");
    var step := MergeTopLevelMap(existing.root, desired.root, last.resource, "resource").value;
    UpdatedFieldMatches(step, desired.root, last.inference, "inference");
    assert NestedMap(updated.root, "resource") == NestedMap(step, "resource");
  }

  lemma UpdatedFieldMatches(target: Fields, desired: Fields, lastApplied: Option<Fields>, field: string)
    requires MapOrAbsent(desired, field)
    requires MergeTopLevelMap(target, desired, lastApplied, field).Some?
    ensures var merged := MergeTopLevelMap(target, desired, lastApplied, field).value;
            && ManagedFieldsMatch(FieldsOrEmpty(NestedMap(desired, field)), FieldsOrEmpty(NestedMap(merged, field)),
                                  FoundFields(NestedMap(desired, field)), [field])
            && (forall k | k != field :: (k in merged <==> k in target) && (k in merged ==> merged[k] == target[k]))
  {
    var live, wanted := FieldsOrEmpty(NestedMap(target, field)), FieldsOrEmpty(NestedMap(desired, field));
    MergeSettles(live, wanted, lastApplied, [field]);
    var merged := MergeManagedMap(live, wanted, lastApplied, [field]);
    MatchIffMergeIsIdentity(merged, wanted, Some(wanted), [field]);
  }

  /** A desired section that is an empty map while the live object has no such section. */
  predicate MissesEmptySection(desired: Fields, live: Fields, field: string) {
    NestedMap(desired, field) == Found(map[]) && NestedMap(live, field) == Absent
  }

  /** A pass that makes no write would not have changed anything by writing, and the converse; the one
      exception is an empty desired section that the live object lacks. */
  lemma NothingToWriteIffUpdateIsIdentity(resource: Workspace, existing: Workspace)
    requires WellShaped(resource) && WellShaped(existing)
    ensures var desired := WithRecord(resource);
            UpdatedFields(existing, desired) == Some(existing)
            <==> NothingToWrite(desired, existing)
                 && !MissesEmptySection(desired.root, existing.root, "resource")
                 && !MissesEmptySection(desired.root, existing.root, "inference")
  {
    var desired := WithRecord(resource);
    var last := LastApplied(existing);
    StringsMatchIffIdentity(existing.labels, desired.labels, last.labels);
    StringsMatchIffIdentity(existing.annotations, desired.annotations, last.annotations);
    if existing.record == desired.record {
      SectionsMatchIffIdentity(existing.root, desired.root);
    }
  }

  /** An empty desired inference section that the live object lacks: nothing is written, though an update would add it. */
  lemma EmptySectionIsNeverWritten()
    ensures var resource := Workspace({"md"}, map["inference" := Obj(map[])], map[], map[], None);
            var desired := WithRecord(resource);
            var live := desired.(root := map[]);
            && NothingToWrite(desired, live)
            && UpdatedFields(live, desired) == Some(desired) && live != desired
  {
    var resource := Workspace({"md"}, map["inference" := Obj(map[])], map[], map[], None);
    var desired := WithRecord(resource);
    var live := desired.(root := map[]);
    assert "inference" in desired.root && "inference" !in live.root;
    MergeIntoEmpty(map[], Some(map[]), ["inference"]);
    assert MergeManagedStringMap(map[], map[], Some(map[])) == map[];
  }

  /** The two sections together. */
  lemma SectionsMatchIffIdentity(live: Fields, desired: Fields)
    requires MapOrAbsent(desired, "resource") && MapOrAbsent(live, "resource")
    requires MapOrAbsent(desired, "inference") && MapOrAbsent(live, "inference")
    ensures var step := MergeTopLevelMap(live, desired, FoundFields(NestedMap(desired, "resource")), "resource").value;
            MergeTopLevelMap(step, desired, FoundFields(NestedMap(desired, "inference")), "inference") == Some(live)
            <==> SectionQuiet(live, desired, "resource") && SectionQuiet(live, desired, "inference")
  {
    SectionMatchesIffIdentity(live, desired, "resource");
    var step := MergeTopLevelMap(live, desired, FoundFields(NestedMap(desired, "resource")), "resource").value;
    OnlyThatSectionChanges(live, desired, FoundFields(NestedMap(desired, "resource")), "resource");
    OnlyThatSectionChanges(step, desired, FoundFields(NestedMap(desired, "inference")), "inference");
    if step == live {
      SectionMatchesIffIdentity(live, desired, "inference");
    } else {
      var last := MergeTopLevelMap(step, desired, FoundFields(NestedMap(desired, "inference")), "inference").value;
      assert SameElsewhere(live, step, "resource") && SameElsewhere(step, last, "inference");
      if last == live {
        SameSectionSameMap(live, step, "resource");
      }
    }
  }

  predicate SectionQuiet(live: Fields, desired: Fields, field: string) {
    && ManagedFieldsMatch(FieldsOrEmpty(NestedMap(desired, field)), FieldsOrEmpty(NestedMap(live, field)),
                          FoundFields(NestedMap(desired, field)), [field])
    && !MissesEmptySection(desired, live, field)
  }

  ghost predicate SameElsewhere(before: Fields, after: Fields, field: string) {
    forall k | k != field :: (k in before <==> k in after) && (k in before ==> before[k] == after[k])
  }

  lemma SameSectionSameMap(before: Fields, after: Fields, field: string)
    requires SameElsewhere(before, after, field)
    requires field in before <==> field in after
    requires field in before ==> before[field] == after[field]
    ensures before == after
  {
  }

  lemma OnlyThatSectionChanges(target: Fields, desired: Fields, lastApplied: Option<Fields>, field: string)
    requires MapOrAbsent(desired, field) && MapOrAbsent(target, field)
    ensures SameElsewhere(target, MergeTopLevelMap(target, desired, lastApplied, field).value, field)
  {
  }

  lemma SectionMatchesIffIdentity(live: Fields, desired: Fields, field: string)
    requires MapOrAbsent(desired, field) && MapOrAbsent(live, field)
    ensures MergeTopLevelMap(live, desired, FoundFields(NestedMap(desired, field)), field) == Some(live)
       <==> SectionQuiet(live, desired, field)
  {
    var lastApplied := FoundFields(NestedMap(desired, field));
    var held, wanted := FieldsOrEmpty(NestedMap(live, field)), FieldsOrEmpty(NestedMap(desired, field));
    MatchIffMergeIsIdentity(held, wanted, lastApplied, [field]);
    MergeIntoEmpty(wanted, lastApplied, [field]);
    assert |[field]| == 1;
    if NestedMap(desired, field).Found? && NestedMap(live, field).Found? {
      var merged := MergeManagedMap(held, wanted, lastApplied, [field]);
      assert live[field := Obj(merged)] == live <==> merged == held by {
        assert live[field := Obj(merged)][field] == Obj(merged) && live[field] == Obj(held);
      }
    }
  }
}
