/** The three-way merge of the KAITO provider: the live object, the desired object and the record of
    what was last applied, over nested JSON maps. */
module KaitoMerge {
  import opened JsonValues

  /** The nested record under one key; anything that is not a map counts as no record. */
  function NestedLastApplied(lastApplied: Option<Fields>, key: string): Option<Fields> {
    if lastApplied.Some? && key in lastApplied.value && lastApplied.value[key].Obj?
    then Some(lastApplied.value[key].fields)
    else None
  }

  predicate TreatsUnknownExtraAsManaged(path: Path) {
    path == ["resource", "labelSelector"] || path == ["resource", "labelSelector", "matchLabels"]
  }

  /** Whether a live key that is not desired is removed. */
  predicate DropsExtra(lastApplied: Option<Fields>, path: Path, key: string) {
    if lastApplied.Some? then key in lastApplied.value else TreatsUnknownExtraAsManaged(path)
  }

  /** What a desired key holds after the merge. */
  function MergedValue(existing: Fields, desired: Fields, lastApplied: Option<Fields>, path: Path, key: string): Json
    requires key in desired
    decreases Obj(desired), 0
  {
    var dv := desired[key];
    if dv.Obj? && key in existing && existing[key].Obj?
    then Obj(MergeManagedMap(existing[key].fields, dv.fields, NestedLastApplied(lastApplied, key), path + [key]))
    else dv
  }

  /** Specification of mergeManagedMap. */
  function MergeManagedMap(existing: Fields, desired: Fields, lastApplied: Option<Fields>, path: Path): Fields
    decreases Obj(desired), 1
  {
    map k | k in existing.Keys + desired.Keys && (k in desired || !DropsExtra(lastApplied, path, k)) ::
      if k in desired then MergedValue(existing, desired, lastApplied, path, k) else existing[k]
  }

  /** mergeManagedMap itself: copy the live map, then assign and delete keys in two loops over maps.
      The keys are taken in an arbitrary order, as Go takes them. */
  method MergeManaged(existing: Fields, desired: Fields, lastApplied: Option<Fields>, path: Path)
    returns (merged: Fields)
    ensures merged == MergeManagedMap(existing, desired, lastApplied, path)
    decreases Obj(desired), 1
  {
    merged := AssignDesired(existing, desired, lastApplied, path);
    merged := DeleteExtras(merged, desired, lastApplied, path);
  }

  method AssignDesired(existing: Fields, desired: Fields, lastApplied: Option<Fields>, path: Path)
    returns (merged: Fields)
    ensures merged.Keys == existing.Keys + desired.Keys
    ensures forall k | k in merged ::
              merged[k] == if k in desired then MergedValue(existing, desired, lastApplied, path, k) else existing[k]
    decreases Obj(desired), 0
  {
    merged := existing;
    var todo := desired.Keys;
    while todo != {}
      invariant todo <= desired.Keys
      invariant merged.Keys == existing.Keys + (desired.Keys - todo)
      invariant forall k | k in merged ::
                  merged[k] == if k in desired && k !in todo then MergedValue(existing, desired, lastApplied, path, k) else existing[k]
    {
      var key :| key in todo;
      var dv := desired[key];
      if dv.Obj? && key in merged && merged[key].Obj? {
        var nested := MergeManaged(merged[key].fields, dv.fields, NestedLastApplied(lastApplied, key), path + [key]);
        merged := merged[key := Obj(nested)];
      } else {
        merged := merged[key := dv];
      }
      todo := todo - {key};
    }
  }

  method DeleteExtras(staged: Fields, desired: Fields, lastApplied: Option<Fields>, path: Path)
    returns (merged: Fields)
    ensures merged == map k | k in staged && (k in desired || !DropsExtra(lastApplied, path, k)) :: staged[k]
  {
    merged := staged;
    var todo := merged.Keys;
    while todo != {}
      invariant todo <= staged.Keys
      invariant forall k :: k in merged <==> k in staged && (k in todo || k in desired || !DropsExtra(lastApplied, path, k))
      invariant forall k | k in merged :: merged[k] == staged[k]
    {
      var key :| key in todo;
      if key !in desired && DropsExtra(lastApplied, path, key) {
        merged := merged - {key};
      }
      todo := todo - {key};
    }
  }

  /** managedFieldsMatch: does the live map already hold what the controller manages? */
  predicate ManagedFieldsMatch(desired: Fields, existing: Fields, lastApplied: Option<Fields>, path: Path)
    decreases Obj(desired)
  {
    && (forall k <- desired ::
          && k in existing
          && if desired[k].Obj? && existing[k].Obj?
             then ManagedFieldsMatch(desired[k].fields, existing[k].fields, NestedLastApplied(lastApplied, k), path + [k])
             else desired[k] == existing[k])
    && (forall k <- existing :: k !in desired ==> !DropsExtra(lastApplied, path, k))
  }

  /** The comparison is quiet exactly when the merge would change nothing. */
  lemma {:induction false} MatchIffMergeIsIdentity(existing: Fields, desired: Fields, lastApplied: Option<Fields>, path: Path)
    ensures ManagedFieldsMatch(desired, existing, lastApplied, path)
       <==> MergeManagedMap(existing, desired, lastApplied, path) == existing
    decreases Obj(desired)
  {
    var merged := MergeManagedMap(existing, desired, lastApplied, path);
    forall k | k in desired && k in existing
      ensures merged[k] == existing[k]
         <==> if desired[k].Obj? && existing[k].Obj?
              then ManagedFieldsMatch(desired[k].fields, existing[k].fields, NestedLastApplied(lastApplied, k), path + [k])
              else desired[k] == existing[k]
    {
      assert merged[k] == MergedValue(existing, desired, lastApplied, path, k);
      if desired[k].Obj? && existing[k].Obj? {
        MatchIffMergeIsIdentity(existing[k].fields, desired[k].fields, NestedLastApplied(lastApplied, k), path + [k]);
      }
    }
    if merged == existing {
      assert forall k | k in desired :: k in merged;
      assert forall k | k in existing :: k in merged;
    }
  }

  /** Which keys a merge leaves: a recorded map loses what was recorded and is no longer desired; an unrecorded one
      keeps every live key, except that a label selector is Airunway's altogether. */
  lemma MergedKeysExactly(existing: Fields, desired: Fields, lastApplied: Option<Fields>, path: Path)
    ensures MergeManagedMap(existing, desired, lastApplied, path).Keys ==
              match lastApplied
              case Some(last) => desired.Keys + (existing.Keys - last.Keys)
              case None =>
                if path == ["resource", "labelSelector"] || path == ["resource", "labelSelector", "matchLabels"] then desired.Keys
                else existing.Keys + desired.Keys
  {
  }

  /** With nothing live, the merge is the desired object, whatever the record says. */
  lemma MergeIntoEmpty(desired: Fields, lastApplied: Option<Fields>, path: Path)
    ensures MergeManagedMap(map[], desired, lastApplied, path) == desired
  {
    assert forall k | k in desired :: MergedValue(map[], desired, lastApplied, path, k) == desired[k];
  }

  /** The members of the object at the end of a path, none when there is no object there. */
  function FieldsAt(fields: Fields, path: Path): Fields {
    match Lookup(Obj(fields), path)
    case Some(Obj(found)) => found
    case _ => map[]
  }

  function LastAppliedAt(lastApplied: Option<Fields>, path: Path): Option<Fields>
    decreases |path|
  {
    if path == [] then lastApplied else LastAppliedAt(NestedLastApplied(lastApplied, path[0]), path[1..])
  }

  /** Descending to an object that stays desired commutes with merging: what a reader finds there is the
      merge of what was live, desired and recorded there. */
  lemma {:induction false} MergeCommutesWithLookup(existing: Fields, desired: Fields, lastApplied: Option<Fields>, path: Path, at: Path)
    requires Lookup(Obj(desired), at).Some? && Lookup(Obj(desired), at).value.Obj?
    ensures Lookup(Obj(MergeManagedMap(existing, desired, lastApplied, path)), at)
         == Some(Obj(MergeManagedMap(FieldsAt(existing, at), FieldsAt(desired, at), LastAppliedAt(lastApplied, at), path + at)))
    decreases |at|
  {
    if at == [] {
      assert path + at == path;
    } else {
      var k, rest := at[0], at[1..];
      var merged := MergeManagedMap(existing, desired, lastApplied, path);
      assert merged[k] == MergedValue(existing, desired, lastApplied, path, k);
      assert path + [k] + rest == path + at;
      if k in existing && existing[k].Obj? {
        MergeCommutesWithLookup(existing[k].fields, desired[k].fields, NestedLastApplied(lastApplied, k), path + [k], rest);
      } else {
        assert Lookup(Obj(existing), at) == if k in existing then Lookup(existing[k], rest) else None;
        assert k in existing ==> rest == [] || Lookup(existing[k], rest).None?;
        assert Lookup(Obj(merged), at) == Lookup(desired[k], rest) == Lookup(Obj(desired), at);
        MergeIntoEmpty(FieldsAt(desired, at), LastAppliedAt(lastApplied, at), path + at);
      }
    }
  }

  /** What the merge leaves under any key of an object that stays desired, for an arbitrarily drifted
      live object: desired leaves read back, recorded keys no longer desired are gone, everything else
      the live object held there is untouched. */
  lemma MergeAtPath(existing: Fields, desired: Fields, lastApplied: Option<Fields>, path: Path, at: Path, key: string)
    requires Lookup(Obj(desired), at).Some? && Lookup(Obj(desired), at).value.Obj?
    ensures var merged := FieldsAt(MergeManagedMap(existing, desired, lastApplied, path), at);
            var wanted, live := FieldsAt(desired, at), FieldsAt(existing, at);
            && (key in merged <==> key in wanted || (key in live && !DropsExtra(LastAppliedAt(lastApplied, at), path + at, key)))
            && (key in wanted && !wanted[key].Obj? ==> merged[key] == wanted[key])
            && (key in merged && key !in wanted ==> merged[key] == live[key])
  {
    MergeCommutesWithLookup(existing, desired, lastApplied, path, at);
  }
}
