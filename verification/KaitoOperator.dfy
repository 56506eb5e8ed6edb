/** What belongs to the cluster operator in a live object, relative to a set of desired objects: the keys
    none of them names, including those inside maps that all of them keep. */
module KaitoOperator {
  import opened JsonValues
  import opened KaitoMerge

  type StringMap = map<string, string>

  ghost predicate Named(family: set<Fields>, key: string) {
    exists d: Fields <- family :: key in d
  }

  ghost predicate Kept(family: set<Fields>, key: string) {
    family != {} && forall d: Fields <- family :: key in d && d[key].Obj?
  }

  ghost function Under(family: set<Fields>, key: string): set<Fields> {
    set d: Fields | d in family && key in d && d[key].Obj? :: d[key].fields
  }

  /** The operator's share of a live object. */
  ghost function OperatorPart(live: Fields, family: set<Fields>): Fields
    decreases Obj(live)
  {
    map k | k in live && (Named(family, k) ==> Kept(family, k) && live[k].Obj?) ::
      if Named(family, k) then Obj(OperatorPart(live[k].fields, Under(family, k))) else live[k]
  }

  /** The live object is exactly one desired object plus what the operator added. */
  ghost predicate Faithful(live: Fields, desired: Fields, family: set<Fields>) {
    live == Overlay(OperatorPart(live, family), desired)
  }

  /** An operator's write that touches only keys no desired object names, inside maps that all of them keep. */
  ghost predicate OperatorEdit(before: Fields, after: Fields, family: set<Fields>)
    decreases Obj(before)
  {
    forall k {:trigger Named(family, k)} | Named(family, k) ::
      && (k in before <==> k in after)
      && (k in before ==>
            || before[k] == after[k]
            || (Kept(family, k) && before[k].Obj? && after[k].Obj?
                && OperatorEdit(before[k].fields, after[k].fields, Under(family, k))))
  }

  lemma DescendFaithful(live: Fields, desired: Fields, family: set<Fields>, k: string)
    requires desired in family && Faithful(live, desired, family) && Kept(family, k)
    ensures k in live && live[k].Obj? && desired[k].Obj? && desired[k].fields in Under(family, k)
    ensures Faithful(live[k].fields, desired[k].fields, Under(family, k))
    ensures OperatorPart(live, family)[k] == Obj(OperatorPart(live[k].fields, Under(family, k)))
  {
    assert Named(family, k);
    assert live[k] == Overlay(OperatorPart(live, family), desired)[k];
  }

  /** A record that equals the live object lets the merge replace it outright. */
  lemma {:induction false} MergeReplacesOwnWrite(previous: Fields, desired: Fields, path: Path)
    ensures MergeManagedMap(previous, desired, Some(previous), path) == desired
    decreases Obj(desired)
  {
    var merged := MergeManagedMap(previous, desired, Some(previous), path);
    forall k | k in desired
      ensures merged[k] == desired[k]
    {
      assert merged[k] == MergedValue(previous, desired, Some(previous), path, k);
      if k in previous && previous[k].Obj? && desired[k].Obj? {
        MergeReplacesOwnWrite(previous[k].fields, desired[k].fields, path + [k]);
      }
    }
  }

  /** One merge turns "previous plus operator" into "desired plus the same operator fields". */
  lemma {:induction false} MergeKeepsOperatorPart(live: Fields, previous: Fields, desired: Fields, family: set<Fields>, path: Path)
    requires previous in family && desired in family
    requires Faithful(live, previous, family)
    ensures MergeManagedMap(live, desired, Some(previous), path) == Overlay(OperatorPart(live, family), desired)
    decreases Obj(desired)
  {
    var own := OperatorPart(live, family);
    var merged := MergeManagedMap(live, desired, Some(previous), path);
    var expected := Overlay(own, desired);
    forall k | k in desired
      ensures merged[k] == expected[k]
    {
      assert Named(family, k);
      assert merged[k] == MergedValue(live, desired, Some(previous), path, k);
      if Kept(family, k) {
        DescendFaithful(live, previous, family, k);
        MergeKeepsOperatorPart(live[k].fields, previous[k].fields, desired[k].fields, Under(family, k), path + [k]);
      } else {
        assert k !in own;
        if k in live {
          assert live[k] == previous[k];
          if live[k].Obj? && desired[k].Obj? {
            MergeReplacesOwnWrite(previous[k].fields, desired[k].fields, path + [k]);
          }
        }
      }
    }
    forall k | k !in desired
      ensures k in merged <==> k in expected
      ensures k in merged ==> merged[k] == expected[k]
    {
      assert Kept(family, k) ==> k in desired;
      if k in own {
        assert !Named(family, k);
        assert k !in previous;
      } else if k in live {
        assert k in previous;
      }
    }
    assert merged.Keys == expected.Keys;
  }

  /** Laying another desired object over the operator's share leaves that share as it was. */
  lemma {:induction false} OverlayKeepsOperatorPart(live: Fields, previous: Fields, desired: Fields, family: set<Fields>)
    requires previous in family && desired in family
    requires Faithful(live, previous, family)
    ensures OperatorPart(Overlay(OperatorPart(live, family), desired), family) == OperatorPart(live, family)
    decreases Obj(desired)
  {
    var own := OperatorPart(live, family);
    var next := Overlay(own, desired);
    var again := OperatorPart(next, family);
    forall k | k in again
      ensures k in own && again[k] == own[k]
    {
      if Named(family, k) {
        DescendFaithful(live, previous, family, k);
        OverlayKeepsOperatorPart(live[k].fields, previous[k].fields, desired[k].fields, Under(family, k));
      }
    }
    forall k | k in own
      ensures k in again
    {
      if Named(family, k) {
        assert k in desired && desired[k].Obj?;
      }
    }
  }

  /** An operator's write leaves a faithful object faithful. */
  lemma {:induction false} EditKeepsFaithful(before: Fields, after: Fields, desired: Fields, family: set<Fields>)
    requires desired in family && Faithful(before, desired, family) && OperatorEdit(before, after, family)
    ensures Faithful(after, desired, family)
    decreases Obj(before)
  {
    var own := OperatorPart(after, family);
    var expected := Overlay(own, desired);
    forall k | k in after || k in expected
      ensures k in after && k in expected && after[k] == expected[k]
    {
      if Kept(family, k) {
        assert Named(family, k);
        DescendFaithful(before, desired, family, k);
        if before[k] != after[k] {
          EditKeepsFaithful(before[k].fields, after[k].fields, desired[k].fields, Under(family, k));
        }
      } else if Named(family, k) {
        assert k !in own;
        assert k !in OperatorPart(before, family);
        assert k in before <==> k in desired;
      } else {
        assert k !in desired;
      }
    }
  }
}
