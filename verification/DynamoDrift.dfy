/** The Dynamo provider's decision whether the stored spec has drifted from the desired one: a comparison
    that ignores the empty values an API server adds, and one that does not for what overrides name. */
module DynamoDrift {
  import opened JsonValues
  import opened Overrides

  /** What normalisation drops when it is the member of an object. */
  predicate Dropped(v: Json) {
    v == Str("") || (v.Obj? && StripEmptyDefaults(v.fields) == map[])
  }

  function StripValue(v: Json): Json {
    match v
    case Obj(fields) => Obj(StripEmptyDefaults(fields))
    case Arr(elems) => Arr(StripSlice(elems))
    case _ => v
  }

  /** stripEmptyDefaults. */
  function StripEmptyDefaults(fields: Fields): Fields
    decreases Obj(fields), 0
  {
    map k | k in fields && !Dropped(fields[k]) :: StripValue(fields[k])
  }

  /** stripEmptyDefaultsSlice: elements are normalised inside but never dropped. */
  function StripSlice(elems: seq<Json>): seq<Json>
    decreases elems, 0
  {
    seq(|elems|, i requires 0 <= i < |elems| => StripValue(elems[i]))
  }

  /** stripEmptyDefaults as the code runs it: fill a fresh map while ranging over the input. */
  method StripMap(fields: Fields) returns (result: Fields)
    ensures result == StripEmptyDefaults(fields)
    decreases Obj(fields), 0
  {
    result := map[];
    var todo := fields.Keys;
    while todo != {}
      invariant todo <= fields.Keys
      invariant forall k :: k in result <==> k in fields && k !in todo && !Dropped(fields[k])
      invariant forall k | k in result :: result[k] == StripValue(fields[k])
    {
      var key :| key in todo;
      match fields[key] {
        case Str(text) =>
          if text != "" {
            result := result[key := Str(text)];
          }
        case Obj(nested) =>
          var stripped := StripMap(nested);
          if stripped != map[] {
            result := result[key := Obj(stripped)];
          }
        case Arr(elems) =>
          var stripped := StripElements(elems);
          result := result[key := Arr(stripped)];
        case _ =>
          result := result[key := fields[key]];
      }
      todo := todo - {key};
    }
  }

  method StripElements(elems: seq<Json>) returns (result: seq<Json>)
    ensures result == StripSlice(elems)
    decreases Arr(elems), 0
  {
    result := [];
    var i := 0;
    while i < |elems|
      invariant 0 <= i <= |elems| == |StripSlice(elems)|
      invariant result == StripSlice(elems)[..i]
    {
      match elems[i] {
        case Obj(nested) =>
          var stripped := StripMap(nested);
          result := result + [Obj(stripped)];
        case Arr(inner) =>
          var stripped := StripElements(inner);
          result := result + [Arr(stripped)];
        case _ =>
          result := result + [elems[i]];
      }
      i := i + 1;
    }
  }

  // ----- What the normalised comparison means -----

  /** An empty string, or a map holding nothing but such values. */
  predicate Emptyish(v: Json) {
    v == Str("") || (v.Obj? && forall k <- v.fields :: Emptyish(v.fields[k]))
  }

  predicate Vanishes(fields: Fields, key: string) {
    key !in fields || Emptyish(fields[key])
  }

  /** Two values that differ only in empty members. */
  predicate SameUpToEmpties(a: Json, b: Json)
    decreases a
  {
    if a.Obj? && b.Obj? then
      forall k <- a.fields.Keys + b.fields.Keys ::
        && (Vanishes(a.fields, k) <==> Vanishes(b.fields, k))
        && (k in a.fields && k in b.fields && !Emptyish(a.fields[k]) ==> SameUpToEmpties(a.fields[k], b.fields[k]))
    else if a.Arr? && b.Arr? then
      |a.elems| == |b.elems| && forall i | 0 <= i < |a.elems| :: SameUpToEmpties(a.elems[i], b.elems[i])
    else a == b
  }

  lemma {:induction false} DroppedIffEmptyish(v: Json)
    ensures Dropped(v) <==> Emptyish(v)
    decreases v
  {
    if v.Obj? {
      forall k | k in v.fields
        ensures Dropped(v.fields[k]) <==> Emptyish(v.fields[k])
      {
        DroppedIffEmptyish(v.fields[k]);
      }
      if Dropped(v) {
        assert forall k | k in v.fields :: k !in StripEmptyDefaults(v.fields);
      } else if Emptyish(v) {
        assert StripEmptyDefaults(v.fields) == map[];
        assert false;
      }
    }
  }

  lemma {:induction false} StripEqualIffSame(a: Json, b: Json)
    ensures StripValue(a) == StripValue(b) <==> SameUpToEmpties(a, b)
    decreases a
  {
    if a.Obj? && b.Obj? {
      StripEqualIffSameFields(a.fields, b.fields);
    } else if a.Arr? && b.Arr? {
      if |a.elems| == |b.elems| {
        forall i | 0 <= i < |a.elems|
          ensures StripSlice(a.elems)[i] == StripSlice(b.elems)[i] <==> SameUpToEmpties(a.elems[i], b.elems[i])
        {
          StripEqualIffSame(a.elems[i], b.elems[i]);
        }
        if SameUpToEmpties(a, b) {
          assert StripSlice(a.elems) == StripSlice(b.elems);
        }
      } else {
        assert |StripSlice(a.elems)| != |StripSlice(b.elems)|;
      }
    }
  }

  lemma {:induction false} StripEqualIffSameFields(a: Fields, b: Fields)
    ensures StripEmptyDefaults(a) == StripEmptyDefaults(b) <==> SameUpToEmpties(Obj(a), Obj(b))
    decreases Obj(a), 0
  {
    var sa, sb := StripEmptyDefaults(a), StripEmptyDefaults(b);
    forall k | k in a || k in b
      ensures k in sa <==> !Vanishes(a, k)
      ensures k in sb <==> !Vanishes(b, k)
      ensures k in a && k in b && !Emptyish(a[k]) && !Emptyish(b[k]) ==> (sa[k] == sb[k] <==> SameUpToEmpties(a[k], b[k]))
    {
      if k in a {
        DroppedIffEmptyish(a[k]);
      }
      if k in b {
        DroppedIffEmptyish(b[k]);
      }
      if k in a && k in b {
        StripEqualIffSame(a[k], b[k]);
      }
    }
    if SameUpToEmpties(Obj(a), Obj(b)) {
      forall k | k in sa || k in sb
        ensures k in sa && k in sb && sa[k] == sb[k]
      {
        assert k in Obj(a).fields.Keys + Obj(b).fields.Keys;
      }
      assert sa == sb;
    }
  }

  // ----- The presence-aware comparison -----

  /** selectedOverrideValuesDiffer. */
  predicate SelectedOverrideValuesDiffer(existing: Json, desired: Json, selected: Json)
    decreases selected
  {
    match selected
    case Obj(selection) =>
      if !existing.Obj? || !desired.Obj? then existing != desired
      else
        exists k <- selection :: k in desired.fields
          && (k !in existing.fields || SelectedOverrideValuesDiffer(existing.fields[k], desired.fields[k], selection[k]))
    case Arr(selection) =>
      if !existing.Arr? || !desired.Arr? || |existing.elems| != |desired.elems| || |selection| != |desired.elems|
      then existing != desired
      else exists i | 0 <= i < |selection| :: SelectedOverrideValuesDiffer(existing.elems[i], desired.elems[i], selection[i])
    case _ => existing != desired
  }

  /** v holds everything that was selected: every key, present, with an agreeing value, explicitly empty
      ones included. */
  predicate Holds(v: Json, selected: Json)
    decreases selected
  {
    match selected
    case Obj(selection) => v.Obj? && forall k <- selection :: k in v.fields && Holds(v.fields[k], selection[k])
    case Arr(selection) => v.Arr? && |v.elems| == |selection| && forall i | 0 <= i < |selection| :: Holds(v.elems[i], selection[i])
    case _ => v == selected
  }

  lemma {:induction false} HoldsItself(v: Json)
    ensures Holds(v, v)
    decreases v
  {
    match v
    case Obj(fields) =>
      forall k | k in fields ensures Holds(fields[k], fields[k]) { HoldsItself(fields[k]); }
    case Arr(elems) =>
      forall i | 0 <= i < |elems| ensures Holds(elems[i], elems[i]) { HoldsItself(elems[i]); }
    case _ =>
  }

  /** A deep merge holds everything of what was merged in, so no selected key is ever missing from it. */
  lemma {:induction false} OverlayHoldsOverrides(base: Fields, overrides: Fields)
    ensures Holds(Obj(Overlay(base, overrides)), Obj(overrides))
    decreases Obj(overrides)
  {
    var merged := Overlay(base, overrides);
    forall k | k in overrides
      ensures Holds(merged[k], overrides[k])
    {
      if overrides[k].Obj? && k in base && base[k].Obj? {
        OverlayHoldsOverrides(base[k].fields, overrides[k].fields);
      } else {
        HoldsItself(overrides[k]);
      }
    }
  }

  /** Where the desired value holds the selection, the comparison is quiet exactly when the existing one does. */
  lemma {:induction false} SelectedAgreeIffHolds(existing: Json, desired: Json, selected: Json)
    requires Holds(desired, selected)
    ensures !SelectedOverrideValuesDiffer(existing, desired, selected) <==> Holds(existing, selected)
    decreases selected
  {
    match selected
    case Obj(selection) =>
      if existing.Obj? {
        forall k | k in selection && k in existing.fields
          ensures !SelectedOverrideValuesDiffer(existing.fields[k], desired.fields[k], selection[k])
             <==> Holds(existing.fields[k], selection[k])
        {
          SelectedAgreeIffHolds(existing.fields[k], desired.fields[k], selection[k]);
        }
      }
    case Arr(selection) =>
      if existing.Arr? && |existing.elems| == |selection| {
        forall i | 0 <= i < |selection|
          ensures !SelectedOverrideValuesDiffer(existing.elems[i], desired.elems[i], selection[i])
             <==> Holds(existing.elems[i], selection[i])
        {
          SelectedAgreeIffHolds(existing.elems[i], desired.elems[i], selection[i]);
        }
      }
    case _ =>
  }

  // ----- The update decision -----

  /** The spec the transformer renders: its own fields with the override spec, if any, merged in. */
  function DesiredSpec(base: Fields, overrideSpec: Option<Fields>): Fields {
    if overrideSpec.Some? then Overlay(base, overrideSpec.value) else base
  }

  /** The condition under which createOrUpdateResource sends an update. */
  predicate NeedsUpdate(existing: Fields, desired: Fields, overrideSpec: Option<Fields>) {
    || StripEmptyDefaults(existing) != StripEmptyDefaults(desired)
    || (overrideSpec.Some? && SelectedOverrideValuesDiffer(Obj(existing), Obj(desired), Obj(overrideSpec.value)))
  }

  method DecideUpdate(existing: Fields, desired: Fields, overrideSpec: Option<Fields>) returns (update: bool)
    ensures update == NeedsUpdate(existing, desired, overrideSpec)
  {
    var normalizedExisting := StripMap(existing);
    var normalizedDesired := StripMap(desired);
    update := normalizedExisting != normalizedDesired
              || (overrideSpec.Some? && SelectedOverrideValuesDiffer(Obj(existing), Obj(desired), Obj(overrideSpec.value)));
  }

  /** The update test is exact: no update is sent exactly when the stored spec is the desired one up to
      empty members and holds everything the overrides name. */
  lemma DriftIsExact(existing: Fields, base: Fields, overrideSpec: Option<Fields>)
    ensures var desired := DesiredSpec(base, overrideSpec);
            !NeedsUpdate(existing, desired, overrideSpec)
            <==> && SameUpToEmpties(Obj(existing), Obj(desired))
                 && (overrideSpec.Some? ==> Holds(Obj(existing), Obj(overrideSpec.value)))
  {
    var desired := DesiredSpec(base, overrideSpec);
    StripEqualIffSameFields(existing, desired);
    if overrideSpec.Some? {
      OverlayHoldsOverrides(base, overrideSpec.value);
      SelectedAgreeIffHolds(Obj(existing), Obj(desired), Obj(overrideSpec.value));
    }
  }

  /** stored is desired plus empty members that an API server added anywhere. */
  predicate AddsEmpties(desired: Json, stored: Json)
    decreases desired
  {
    if desired.Obj? && stored.Obj? then
      && (forall k <- desired.fields :: k in stored.fields && AddsEmpties(desired.fields[k], stored.fields[k]))
      && (forall k <- stored.fields :: k !in desired.fields ==> Emptyish(stored.fields[k]))
    else if desired.Arr? && stored.Arr? then
      |desired.elems| == |stored.elems| && forall i | 0 <= i < |desired.elems| :: AddsEmpties(desired.elems[i], stored.elems[i])
    else desired == stored
  }

  lemma {:induction false} AddedEmptiesKeepEmptiness(desired: Json, stored: Json)
    requires AddsEmpties(desired, stored)
    ensures Emptyish(desired) <==> Emptyish(stored)
    decreases desired
  {
    if desired.Obj? && stored.Obj? {
      forall k | k in desired.fields
        ensures Emptyish(desired.fields[k]) <==> Emptyish(stored.fields[k])
      {
        AddedEmptiesKeepEmptiness(desired.fields[k], stored.fields[k]);
      }
    }
  }

  lemma {:induction false} AddedEmptiesAreIgnored(desired: Json, stored: Json)
    requires AddsEmpties(desired, stored)
    ensures SameUpToEmpties(stored, desired)
    decreases desired
  {
    if desired.Obj? && stored.Obj? {
      forall k | k in stored.fields.Keys + desired.fields.Keys
        ensures Vanishes(stored.fields, k) <==> Vanishes(desired.fields, k)
        ensures k in stored.fields && k in desired.fields ==> SameUpToEmpties(stored.fields[k], desired.fields[k])
      {
        if k in desired.fields {
          AddedEmptiesKeepEmptiness(desired.fields[k], stored.fields[k]);
          AddedEmptiesAreIgnored(desired.fields[k], stored.fields[k]);
        }
      }
    } else if desired.Arr? && stored.Arr? {
      forall i | 0 <= i < |desired.elems|
        ensures SameUpToEmpties(stored.elems[i], desired.elems[i])
      {
        AddedEmptiesAreIgnored(desired.elems[i], stored.elems[i]);
      }
    } else {
      StripEqualIffSame(stored, desired);
    }
  }

  lemma {:induction false} AddedEmptiesStillHold(desired: Json, stored: Json, selected: Json)
    requires AddsEmpties(desired, stored) && Holds(desired, selected)
    ensures Holds(stored, selected)
    decreases selected
  {
    match selected
    case Obj(selection) =>
      forall k | k in selection ensures Holds(stored.fields[k], selection[k]) {
        AddedEmptiesStillHold(desired.fields[k], stored.fields[k], selection[k]);
      }
    case Arr(selection) =>
      forall i | 0 <= i < |selection| ensures Holds(stored.elems[i], selection[i]) {
        AddedEmptiesStillHold(desired.elems[i], stored.elems[i], selection[i]);
      }
    case _ =>
  }

  /** Once the desired spec is stored, empty members added by the API server never cause another update. */
  lemma QuietOnServerDefaults(stored: Fields, base: Fields, overrideSpec: Option<Fields>)
    requires AddsEmpties(Obj(DesiredSpec(base, overrideSpec)), Obj(stored))
    ensures !NeedsUpdate(stored, DesiredSpec(base, overrideSpec), overrideSpec)
  {
    var desired := DesiredSpec(base, overrideSpec);
    DriftIsExact(stored, base, overrideSpec);
    AddedEmptiesAreIgnored(Obj(desired), Obj(stored));
    if overrideSpec.Some? {
      OverlayHoldsOverrides(base, overrideSpec.value);
      AddedEmptiesStillHold(Obj(desired), Obj(stored), Obj(overrideSpec.value));
    }
  }

  /** When no update is sent, every path of the overrides is present in the stored spec; a leaf has its
      value there, a map is a map there even if it is empty. */
  lemma {:induction false} HeldPathsReadBack(stored: Json, selected: Json, path: Path)
    requires Holds(stored, selected) && Lookup(selected, path).Some?
    ensures var given, read := Lookup(selected, path).value, Lookup(stored, path);
            && read.Some? && Holds(read.value, given)
            && (given.Obj? ==> read.value.Obj?)
            && (!given.Obj? && !given.Arr? ==> read.value == given)
    decreases |path|
  {
    if path != [] {
      HeldPathsReadBack(stored.fields[path[0]], selected.fields[path[0]], path[1..]);
    }
  }

  lemma NoOverrideIsLost(existing: Fields, base: Fields, overrideSpec: Fields, path: Path)
    requires !NeedsUpdate(existing, DesiredSpec(base, Some(overrideSpec)), Some(overrideSpec))
    requires Lookup(Obj(overrideSpec), path).Some?
    ensures var given, read := Lookup(Obj(overrideSpec), path).value, Lookup(Obj(existing), path);
            && read.Some? && Holds(read.value, given)
            && (given.Obj? ==> read.value.Obj?)
            && (!given.Obj? && !given.Arr? ==> read.value == given)
  {
    DriftIsExact(existing, base, Some(overrideSpec));
    HeldPathsReadBack(Obj(existing), Obj(overrideSpec), path);
  }
}
