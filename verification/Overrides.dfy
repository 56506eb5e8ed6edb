/** provider.overrides: the two deep merges, the root-key policies and what an accepted override
    document can and cannot change. */
module Overrides {
  import opened JsonValues
  import opened Sorting

  /** An unstructured Kubernetes object; deepMerge rewrites its members. */
  class Unstructured {
    var content: Fields

    constructor (content: Fields)
      ensures this.content == content
    {
      this.content := content;
    }

    /** deepMerge of the Dynamo and vLLM transformers. */
    method DeepMerge(src: Fields)
      modifies this
      ensures content == Overlay(old(content), src)
      decreases Obj(src)
    {
      ghost var dst := content;
      var todo := src.Keys;
      while todo != {}
        invariant todo <= src.Keys
        invariant content.Keys == dst.Keys + (src.Keys - todo)
        invariant forall k | k in content :: content[k] == if k in src && k !in todo then Overlay(dst, src)[k] else dst[k]
      {
        var key :| key in todo;
        if src[key].Obj? && key in content && content[key].Obj? {
          var nested := new Unstructured(content[key].fields);
          nested.DeepMerge(src[key].fields);
          content := content[key := Obj(nested.content)];
        } else {
          content := content[key := src[key]];
        }
        todo := todo - {key};
      }
    }

    /** deepMerge of the KAITO transformer: a null deletes. */
    method DeepMergeDeletingNulls(src: Fields)
      modifies this
      ensures content == OverlayDeletingNulls(old(content), src)
      decreases Obj(src)
    {
      ghost var dst := content;
      var todo := src.Keys;
      while todo != {}
        invariant todo <= src.Keys
        invariant forall k :: k in content <==>
                    if k in src && k !in todo then k in OverlayDeletingNulls(dst, src) else k in dst
        invariant forall k | k in content :: content[k] ==
                    if k in src && k !in todo then OverlayDeletingNulls(dst, src)[k] else dst[k]
      {
        var key :| key in todo;
        if src[key] == Null {
          content := content - {key};
        } else if src[key].Obj? && key in content && content[key].Obj? {
          var nested := new Unstructured(content[key].fields);
          nested.DeepMergeDeletingNulls(src[key].fields);
          content := content[key := Obj(nested.content)];
        } else {
          content := content[key := src[key]];
        }
        todo := todo - {key};
      }
    }

    /** applyOverrides of the Dynamo transformer. */
    method ApplyDynamo(document: Json) returns (err: Option<OverrideError>)
      modifies this
      ensures err == DynamoError(document)
      ensures content == if err.Some? then old(content) else DynamoResult(old(content), document)
    {
      if !document.Obj? && document != Null {
        return Some(Unparsable);
      }
      var overrides := if document.Obj? then document.fields else map[];
      err := CheckRootKeys(overrides, set k | k in overrides && DynamoSupports(k));
      if err.Some? {
        return;
      }
      var todo := overrides.Keys;
      ghost var all := overrides;
      while todo != {}
        invariant todo <= all.Keys
        invariant overrides == map k | k in all && (k in todo || k == "spec" || ToLower(k) !in CONSUMED_KEYS) :: all[k]
      {
        var key :| key in todo;
        if key != "spec" && ToLower(key) in CONSUMED_KEYS {
          overrides := overrides - {key};
        }
        todo := todo - {key};
      }
      assert overrides == SpecOnly(all);
      DeepMerge(overrides);
    }

    /** applyOverrides of the vLLM transformer. */
    method ApplyVllm(document: Json) returns (err: Option<OverrideError>)
      modifies this
      ensures err == VllmError(document)
      ensures content == if err.Some? then old(content) else Overlay(old(content), FieldsOf(document))
    {
      if !document.Obj? && document != Null {
        return Some(Unparsable);
      }
      var overrides := if document.Obj? then document.fields else map[];
      err := CheckRootKeys(overrides, set k | k in overrides && k == "spec");
      if err.None? {
        DeepMerge(overrides);
      }
    }

    /** applyOverrides of the KAITO transformer. */
    method ApplyKaito(document: Json) returns (err: Option<OverrideError>)
      modifies this
      ensures err == KaitoError(document)
      ensures content == if err.Some? then old(content) else OverlayDeletingNulls(old(content), FieldsOf(document))
    {
      if !document.Obj? && document != Null {
        return Some(Unparsable);
      }
      var overrides := if document.Obj? then document.fields else map[];
      if "resource" in overrides && overrides["resource"].Obj? && "count" in overrides["resource"].fields {
        return Some(BypassesReplicaLimit);
      }
      err := CheckRootKeys(overrides, set k | k in overrides && k in WORKSPACE_ROOT_KEYS);
      if err.None? {
        DeepMergeDeletingNulls(overrides);
      }
    }
  }

  datatype OverrideError = Unparsable | BypassesReplicaLimit | Blocked(key: string) | Unsupported(keys: seq<string>)

  const BLOCKED_KEYS: seq<string> := ["apiVersion", "kind", "metadata", "status"]
  const CONSUMED_KEYS: set<string> := {"routermode", "frontend", "epp"}
  const WORKSPACE_ROOT_KEYS: set<string> := {"resource", "inference"}

  function LowerChar(c: char): char {
    if 'A' <= c <= 'Z' then ((c as int) + 32) as char else c
  }

  function ToLower(s: string): string {
    seq(|s|, i requires 0 <= i < |s| => LowerChar(s[i]))
  }

  predicate DynamoSupports(key: string) {
    key == "spec" || ToLower(key) in CONSUMED_KEYS
  }

  function FieldsOf(document: Json): Fields {
    if document.Obj? then document.fields else map[]
  }

  function FirstBlocked(overrides: Fields, i: nat): Option<string>
    requires i <= |BLOCKED_KEYS|
    decreases |BLOCKED_KEYS| - i
  {
    if i == |BLOCKED_KEYS| then None
    else if BLOCKED_KEYS[i] in overrides then Some(BLOCKED_KEYS[i])
    else FirstBlocked(overrides, i + 1)
  }

  /** The error, text included, that a document is refused with: it depends on the document alone. */
  ghost function RootError(document: Json, supported: set<string>): Option<OverrideError> {
    if !document.Obj? && document != Null then Some(Unparsable)
    else if FirstBlocked(FieldsOf(document), 0).Some? then Some(Blocked(FirstBlocked(FieldsOf(document), 0).value))
    else if FieldsOf(document).Keys <= supported then None
    else Some(Unsupported(SortedKeys(FieldsOf(document).Keys - supported)))
  }

  ghost function DynamoError(document: Json): Option<OverrideError> {
    RootError(document, set k | k in FieldsOf(document) && DynamoSupports(k))
  }

  ghost function VllmError(document: Json): Option<OverrideError> {
    RootError(document, set k | k in FieldsOf(document) && k == "spec")
  }

  ghost function KaitoError(document: Json): Option<OverrideError> {
    var overrides := FieldsOf(document);
    if "resource" in overrides && overrides["resource"].Obj? && "count" in overrides["resource"].fields
    then Some(BypassesReplicaLimit)
    else RootError(document, set k | k in overrides && k in WORKSPACE_ROOT_KEYS)
  }

  function SpecOnly(overrides: Fields): Fields {
    map k | k in overrides && k == "spec" :: overrides[k]
  }

  function DynamoResult(content: Fields, document: Json): Fields {
    Overlay(content, SpecOnly(FieldsOf(document)))
  }

  method CheckRootKeys(overrides: Fields, supported: set<string>) returns (err: Option<OverrideError>)
    ensures err == RootError(Obj(overrides), supported)
  {
    var i := 0;
    while i < |BLOCKED_KEYS|
      invariant 0 <= i <= |BLOCKED_KEYS|
      invariant FirstBlocked(overrides, 0) == FirstBlocked(overrides, i)
    {
      if BLOCKED_KEYS[i] in overrides {
        return Some(Blocked(BLOCKED_KEYS[i]));
      }
      i := i + 1;
    }
    if overrides.Keys <= supported {
      return None;
    }
    var unsupported := CollectSorted(overrides.Keys - supported);
    return Some(Unsupported(unsupported));
  }

  // ----- The deleting merge and JSON merge patch -----

  /** Specification of KAITO's deepMerge. */
  function OverlayDeletingNulls(dst: Fields, src: Fields): Fields
    decreases Obj(src)
  {
    map k | k in dst.Keys + src.Keys && (k in src ==> src[k] != Null) ::
      if k !in src then dst[k]
      else if src[k].Obj? && k in dst && dst[k].Obj? then Obj(OverlayDeletingNulls(dst[k].fields, src[k].fields))
      else src[k]
  }

  /** MergePatch of section 2 of RFC 7396; a target that is missing is any value that is not an object. */
  function MergePatch(target: Json, patch: Json): Json
    decreases patch
  {
    if patch.Obj? then
      var base := if target.Obj? then target.fields else map[];
      Obj(map k | k in base.Keys + patch.fields.Keys && (k in patch.fields ==> patch.fields[k] != Null) ::
            if k in patch.fields then MergePatch(if k in base then base[k] else Null, patch.fields[k]) else base[k])
    else patch
  }

  /** Every object of src that lands where dst has no object to merge into is free of nulls. */
  predicate PlacesNullFree(dst: Fields, src: Fields)
    decreases Obj(src)
  {
    forall k <- src :: src[k].Obj? ==>
      if k in dst && dst[k].Obj? then PlacesNullFree(dst[k].fields, src[k].fields) else NullFree(src[k])
  }

  lemma {:induction false} PatchingNothing(target: Json, patch: Json)
    requires !target.Obj?
    ensures MergePatch(target, patch) == patch <==> NullFree(patch)
    decreases patch
  {
    if patch.Obj? {
      var result := MergePatch(target, patch).fields;
      forall k | k in patch.fields && patch.fields[k] != Null
        ensures result[k] == patch.fields[k] <==> NullFree(patch.fields[k])
      {
        PatchingNothing(Null, patch.fields[k]);
      }
      if result == patch.fields {
        assert forall k | k in patch.fields :: k in result;
      }
    }
  }

  /** KAITO's deepMerge is RFC 7396 exactly on the patches that place no object with a null inside. */
  lemma {:induction false} DeepMergeIsMergePatch(dst: Fields, src: Fields)
    ensures Obj(OverlayDeletingNulls(dst, src)) == MergePatch(Obj(dst), Obj(src)) <==> PlacesNullFree(dst, src)
    decreases Obj(src)
  {
    var mine, standard := OverlayDeletingNulls(dst, src), MergePatch(Obj(dst), Obj(src)).fields;
    assert mine.Keys == standard.Keys;
    forall k | k in src && src[k] != Null
      ensures mine[k] == standard[k]
         <==> (src[k].Obj? ==> if k in dst && dst[k].Obj? then PlacesNullFree(dst[k].fields, src[k].fields) else NullFree(src[k]))
    {
      assert standard[k] == MergePatch(if k in dst then dst[k] else Null, src[k]);
      if src[k].Obj? {
        if k in dst && dst[k].Obj? {
          DeepMergeIsMergePatch(dst[k].fields, src[k].fields);
        } else {
          PatchingNothing(if k in dst then dst[k] else Null, src[k]);
        }
      }
    }
    if mine == standard {
      assert forall k | k in src && src[k] != Null :: k in mine;
    }
  }

  lemma {:induction false} MergingIntoItself(src: Fields)
    ensures OverlayDeletingNulls(src, src) == src <==> NullFree(Obj(src))
    decreases Obj(src)
  {
    var again := OverlayDeletingNulls(src, src);
    forall k | k in src && src[k].Obj?
      ensures again[k] == src[k] <==> NullFree(src[k])
    {
      MergingIntoItself(src[k].fields);
    }
    if again == src {
      assert forall k | k in src :: k in again;
    }
  }

  /** The same patches are exactly the ones that can be applied twice without a further effect. */
  lemma {:induction false} DeepMergeIdempotent(dst: Fields, src: Fields)
    ensures var once := OverlayDeletingNulls(dst, src);
            OverlayDeletingNulls(once, src) == once <==> PlacesNullFree(dst, src)
    decreases Obj(src)
  {
    var once := OverlayDeletingNulls(dst, src);
    var twice := OverlayDeletingNulls(once, src);
    assert once.Keys == twice.Keys;
    forall k | k in src && src[k].Obj?
      ensures twice[k] == once[k]
         <==> if k in dst && dst[k].Obj? then PlacesNullFree(dst[k].fields, src[k].fields) else NullFree(src[k])
    {
      if k in dst && dst[k].Obj? {
        DeepMergeIdempotent(dst[k].fields, src[k].fields);
      } else {
        MergingIntoItself(src[k].fields);
      }
    }
    if once == twice {
      assert forall k | k in src && src[k].Obj? :: k in once;
    }
  }

  /** {"inference": {"x": {"a": null}}} over an empty object: the null stays, and a second application removes it. */
  lemma PlacedNullSurvives()
    ensures var src: Fields := map["inference" := Obj(map["x" := Obj(map["a" := Null])])];
            var once := OverlayDeletingNulls(map[], src);
            && once == src
            && Obj(once) != MergePatch(Obj(map[]), Obj(src))
            && OverlayDeletingNulls(once, src) != once
  {
    var src: Fields := map["inference" := Obj(map["x" := Obj(map["a" := Null])])];
    NullTwoMapsDeep();
    DeepMergeIsMergePatch(map[], src);
    DeepMergeIdempotent(map[], src);
  }

  lemma NullTwoMapsDeep()
    ensures !PlacesNullFree(map[], map["inference" := Obj(map["x" := Obj(map["a" := Null])])])
  {
    var inner: Fields := map["a" := Null];
    var x: Fields := map["x" := Obj(inner)];
    var src: Fields := map["inference" := Obj(x)];
    assert "a" in Obj(inner).fields && !NullFree(Obj(inner));
    assert "x" in Obj(x).fields && !NullFree(Obj(x));
    assert "inference" in src;
  }

  // ----- What an accepted document changes -----

  /** Whether an override reaches a path: it names it, something above it, or something below it. */
  predicate Touches(src: Json, path: Path)
    decreases |path|
  {
    path == [] || !src.Obj? || (path[0] in src.fields && Touches(src.fields[path[0]], path[1..]))
  }

  /** Override leaves read back; paths the override does not reach keep their value. */
  lemma {:induction false} OverlayAtPath(dst: Fields, src: Fields, path: Path)
    ensures var given, read := Lookup(Obj(src), path), Lookup(Obj(Overlay(dst, src)), path);
            && (given.Some? && !given.value.Obj? ==> read == given)
            && (given.Some? && given.value.Obj? ==> read.Some? && read.value.Obj?)
            && (!Touches(Obj(src), path) ==> read == Lookup(Obj(dst), path))
    decreases |path|
  {
    if path != [] {
      var k, rest := path[0], path[1..];
      var merged := Overlay(dst, src);
      if k in src {
        if src[k].Obj? && k in dst && dst[k].Obj? {
          OverlayAtPath(dst[k].fields, src[k].fields, rest);
        } else {
          assert merged[k] == src[k];
          if !Touches(src[k], rest) {
            UntouchedIsUnset(src[k], rest);
            assert k in dst ==> Lookup(dst[k], rest).None?;
          }
        }
      }
    }
  }

  lemma {:induction false} UntouchedIsUnset(src: Json, path: Path)
    requires !Touches(src, path)
    ensures path != [] && Lookup(src, path).None?
    decreases |path|
  {
    if path[0] in src.fields {
      UntouchedIsUnset(src.fields[path[0]], path[1..]);
    }
  }

  /** Dynamo: an accepted document leaves every root field but spec as rendered, and inside spec each
      override leaf reads back while unreached paths keep the rendered value. */
  lemma DynamoOverridesAreContained(content: Fields, document: Json, path: Path)
    requires DynamoError(document).None?
    ensures var result, overrides := DynamoResult(content, document), FieldsOf(document);
            && (forall k | k != "spec" :: (k in result <==> k in content) && (k in result ==> result[k] == content[k]))
            && (path != [] && path[0] == "spec" ==>
                  var given, read := Lookup(Obj(overrides), path), Lookup(Obj(result), path);
                  && (given.Some? && !given.value.Obj? ==> read == given)
                  && (!Touches(Obj(overrides), path) ==> read == Lookup(Obj(content), path)))
  {
    var overrides := FieldsOf(document);
    OverlayAtPath(content, SpecOnly(overrides), path);
    if path != [] && path[0] == "spec" {
      assert "spec" in SpecOnly(overrides) <==> "spec" in overrides;
    }
  }

  /** KAITO: an accepted document leaves every root field but the two sections as rendered, and a resource
      section that is still a map keeps the rendered count. */
  lemma KaitoKeepsReplicaCount(content: Fields, document: Json)
    requires KaitoError(document).None?
    requires "resource" in content && content["resource"].Obj? && "count" in content["resource"].fields
    ensures var result, overrides := OverlayDeletingNulls(content, FieldsOf(document)), FieldsOf(document);
            && (forall k | k !in WORKSPACE_ROOT_KEYS :: (k in result <==> k in content) && (k in result ==> result[k] == content[k]))
            && ("resource" in result && result["resource"].Obj? <==> ("resource" in overrides ==> overrides["resource"].Obj?))
            && ("resource" in result && result["resource"].Obj? ==>
                  "count" in result["resource"].fields && result["resource"].fields["count"] == content["resource"].fields["count"])
  {
    var overrides := FieldsOf(document);
    assert forall k | k in overrides :: k in WORKSPACE_ROOT_KEYS;
  }

  /** vLLM: the same containment as Dynamo's. */
  lemma VllmOverridesAreContained(content: Fields, document: Json, path: Path)
    requires VllmError(document).None?
    ensures var result, overrides := Overlay(content, FieldsOf(document)), FieldsOf(document);
            && (forall k | k != "spec" :: (k in result <==> k in content) && (k in result ==> result[k] == content[k]))
            && var given, read := Lookup(Obj(overrides), path), Lookup(Obj(result), path);
               && (given.Some? && !given.value.Obj? ==> read == given)
               && (!Touches(Obj(overrides), path) ==> read == Lookup(Obj(content), path))
  {
    OverlayAtPath(content, FieldsOf(document), path);
  }

  /** KAITO: leaves read back, maps stay maps, and unreached paths keep their value. */
  lemma {:induction false} DeletingOverlayAtPath(dst: Fields, src: Fields, path: Path)
    ensures var given, read := Lookup(Obj(src), path), Lookup(Obj(OverlayDeletingNulls(dst, src)), path);
            && (given.Some? && given.value.Obj? ==> read.Some? && read.value.Obj?)
            && (given.Some? && !given.value.Obj? && given.value != Null ==> read == given)
            && (!Touches(Obj(src), path) ==> read == Lookup(Obj(dst), path))
    decreases |path|
  {
    if path != [] {
      var k, rest := path[0], path[1..];
      var merged := OverlayDeletingNulls(dst, src);
      if k in src && src[k] != Null {
        if src[k].Obj? && k in dst && dst[k].Obj? {
          DeletingOverlayAtPath(dst[k].fields, src[k].fields, rest);
        } else {
          assert merged[k] == src[k];
          if !Touches(src[k], rest) {
            UntouchedIsUnset(src[k], rest);
            assert k in dst ==> Lookup(dst[k], rest).None?;
          }
        }
      }
    }
  }

  /** KAITO: a null removes what the base has at its path; only where the base has no object around it does the null
      stay as it is. */
  lemma {:induction false} NullAtPath(dst: Fields, src: Fields, path: Path)
    requires path != [] && Lookup(Obj(src), path) == Some(Null)
    ensures var around := Lookup(Obj(dst), path[..|path| - 1]);
            Lookup(Obj(OverlayDeletingNulls(dst, src)), path) == if around.Some? && around.value.Obj? then None else Some(Null)
    decreases |path|
  {
    var k, rest, front := path[0], path[1..], path[..|path| - 1];
    var merged := OverlayDeletingNulls(dst, src);
    if rest == [] {
      assert front == [] && k !in merged;
    } else {
      assert front[0] == k && front[1..] == rest[..|rest| - 1];
      assert src[k].Obj?;
      assert Lookup(Obj(dst), front) == if k in dst then Lookup(dst[k], front[1..]) else None;
      if k in dst && dst[k].Obj? {
        NullAtPath(dst[k].fields, src[k].fields, rest);
      } else {
        assert merged[k] == src[k];
      }
    }
  }

  // ----- Which documents are accepted -----

  /** The same letters, upper or lower case. */
  predicate SameIgnoringCase(a: string, b: string) {
    |a| == |b| && forall i | 0 <= i < |a| :: SameLetter(a[i], b[i])
  }

  predicate SameLetter(a: char, b: char) {
    a == b || ('A' <= a <= 'Z' && 'a' <= b <= 'z' && b as int - 'a' as int == a as int - 'A' as int)
  }

  lemma LowerCaseIffSame(key: string, lower: string)
    requires forall c <- lower :: !('A' <= c <= 'Z')
    ensures ToLower(key) == lower <==> SameIgnoringCase(key, lower)
  {
    if |key| == |lower| {
      forall i | 0 <= i < |key|
        ensures ToLower(key)[i] == lower[i] <==> SameLetter(key[i], lower[i])
      {
        assert lower[i] in lower;
      }
      if SameIgnoringCase(key, lower) {
        assert forall i | 0 <= i < |key| :: SameLetter(key[i], lower[i]);
        assert ToLower(key) == lower;
      }
    }
  }

  /** Dynamo takes spec and, in any case, routerMode, frontend and epp. */
  lemma DynamoSupportsExactly(key: string)
    ensures DynamoSupports(key) <==>
              key == "spec" || SameIgnoringCase(key, "routermode") || SameIgnoringCase(key, "frontend") || SameIgnoringCase(key, "epp")
  {
    LowerCaseIffSame(key, "routermode");
    LowerCaseIffSame(key, "frontend");
    LowerCaseIffSame(key, "epp");
  }

  lemma {:induction false} FirstBlockedExactly(overrides: Fields, i: nat)
    requires i <= |BLOCKED_KEYS|
    ensures match FirstBlocked(overrides, i)
            case Some(k) => exists j | i <= j < |BLOCKED_KEYS| ::
              k == BLOCKED_KEYS[j] && k in overrides && forall h | i <= h < j :: BLOCKED_KEYS[h] !in overrides
            case None => forall j | i <= j < |BLOCKED_KEYS| :: BLOCKED_KEYS[j] !in overrides
    decreases |BLOCKED_KEYS| - i
  {
    if i < |BLOCKED_KEYS| && BLOCKED_KEYS[i] !in overrides {
      FirstBlockedExactly(overrides, i + 1);
    }
  }

  /** An object is refused for the first of apiVersion, kind, metadata and status that it holds, or else for all its
      unsupported keys, in sorted order; null is an empty document, and anything else is not one. */
  lemma RootErrorExactly(document: Json, supported: set<string>)
    ensures RootError(document, supported) ==
              match document
              case Null => None
              case Obj(overrides) =>
                if "apiVersion" in overrides then Some(Blocked("apiVersion"))
                else if "kind" in overrides then Some(Blocked("kind"))
                else if "metadata" in overrides then Some(Blocked("metadata"))
                else if "status" in overrides then Some(Blocked("status"))
                else if overrides.Keys <= supported then None
                else Some(Unsupported(SortedKeys(overrides.Keys - supported)))
              case _ => Some(Unparsable)
  {
    var overrides := FieldsOf(document);
    FirstBlockedExactly(overrides, 0);
    assert BLOCKED_KEYS[0] == "apiVersion" && BLOCKED_KEYS[1] == "kind" && BLOCKED_KEYS[2] == "metadata" && BLOCKED_KEYS[3] == "status";
  }

  predicate IsDocument(document: Json) {
    document.Obj? || document == Null
  }

  /** Which documents each provider accepts. */
  lemma VllmAcceptsExactly(document: Json)
    ensures VllmError(document).None? <==> IsDocument(document) && FieldsOf(document).Keys <= {"spec"}
  {
    RootErrorExactly(document, set k | k in FieldsOf(document) && k == "spec");
  }

  lemma DynamoAcceptsExactly(document: Json)
    ensures DynamoError(document).None? <==> IsDocument(document) && forall k <- FieldsOf(document) ::
              k == "spec" || SameIgnoringCase(k, "routermode") || SameIgnoringCase(k, "frontend") || SameIgnoringCase(k, "epp")
  {
    forall k | k in FieldsOf(document)
      ensures DynamoSupports(k) <==>
                k == "spec" || SameIgnoringCase(k, "routermode") || SameIgnoringCase(k, "frontend") || SameIgnoringCase(k, "epp")
    {
      DynamoSupportsExactly(k);
    }
    BlockedKeysAreUnsupported();
    RootErrorExactly(document, set k | k in FieldsOf(document) && DynamoSupports(k));
  }

  /** KAITO looks at the replica count before anything else. */
  lemma KaitoAcceptsExactly(document: Json)
    ensures var overrides := FieldsOf(document);
            var counted := "resource" in overrides && overrides["resource"].Obj? && "count" in overrides["resource"].fields;
            && (KaitoError(document) == Some(BypassesReplicaLimit) <==> counted)
            && (KaitoError(document).None? <==> IsDocument(document) && overrides.Keys <= {"resource", "inference"} && !counted)
  {
    RootErrorExactly(document, set k | k in FieldsOf(document) && k in WORKSPACE_ROOT_KEYS);
  }

  lemma BlockedKeysAreUnsupported()
    ensures !DynamoSupports("apiVersion") && !DynamoSupports("kind") && !DynamoSupports("metadata") && !DynamoSupports("status")
  {
    assert ToLower("apiVersion")[0] == 'a' && ToLower("kind")[0] == 'k' && ToLower("metadata")[0] == 'm' && |ToLower("status")| == 6;
  }
}
