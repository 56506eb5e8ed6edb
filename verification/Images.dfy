/** Image references of the vLLM provider, and the pinning of the default image to a digest. */
module Images {
  import opened JsonValues
  import opened Texts

  datatype Reference = Reference(repository: string, tag: string, digest: string)

  /** parseImageReference. */
  function ParseImageReference(imageRef: string): Reference {
    var ref := Trim(imageRef);
    if ref == "" then Reference("", "", "")
    else
      match IndexOf(ref, '@')
      case None => ParseNameAndTag(ref, "")
      case Some(at) => ParseNameAndTag(ref[..at], ref[at + 1..])
  }

  function ParseNameAndTag(nameAndTag: string, digest: string): Reference {
    var lastSlash, lastColon := LastIndexOf(nameAndTag, '/'), LastIndexOf(nameAndTag, ':');
    if lastColon > lastSlash then Reference(nameAndTag[..lastColon], nameAndTag[lastColon + 1..], digest)
    else Reference(nameAndTag, "", digest)
  }

  /** An image reference as it is written down. */
  function PrintImageReference(repository: string, tag: Option<string>, digest: Option<string>): string {
    PrintNameAndTag(repository, tag) + if digest.Some? then "@" + digest.value else ""
  }

  function PrintNameAndTag(repository: string, tag: Option<string>): string {
    repository + if tag.Some? then ":" + tag.value else ""
  }

  function OrEmpty(s: Option<string>): string {
    if s.Some? then s.value else ""
  }

  /** No '@' in the repository; a tag without ':', '/' or '@', or if there is no tag, no ':' after the
      last '/' of the repository. */
  predicate Readable(repository: string, tag: Option<string>) {
    && '@' !in repository
    && match tag
       case Some(t) => '@' !in t && ':' !in t && '/' !in t
       case None => LastIndexOf(repository, ':') <= LastIndexOf(repository, '/')
  }

  lemma NameAndTagReadsBack(repository: string, tag: Option<string>, digest: string)
    requires '@' !in repository && (tag.Some? ==> '@' !in tag.value)
    ensures ParseNameAndTag(PrintNameAndTag(repository, tag), digest) == Reference(repository, OrEmpty(tag), digest)
       <==> Readable(repository, tag)
  {
    if tag.Some? {
      assert PrintNameAndTag(repository, tag) == repository + ":" + tag.value;
      TaggedNameReadsBack(repository, tag.value, digest);
    } else {
      assert PrintNameAndTag(repository, None) == repository;
    }
  }

  lemma TaggedNameReadsBack(repository: string, tag: string, digest: string)
    ensures ParseNameAndTag(repository + ":" + tag, digest) == Reference(repository, tag, digest)
       <==> ':' !in tag && '/' !in tag
  {
    var text, n := repository + ":" + tag, |repository|;
    assert text[n] == ':' && text[..n] == repository && text[n + 1..] == tag;
    assert forall k | n < k < |text| :: text[k] == tag[k - n - 1];
    var lastSlash, lastColon := LastIndexOf(text, '/'), LastIndexOf(text, ':');
    if ':' !in tag && '/' !in tag {
      assert lastColon == n && lastSlash < n;
    } else if lastColon == n {
      var k :| 0 <= k < |tag| && tag[k] == '/';
      assert text[n + 1 + k] == '/';
    }
  }

  /** Parsing what was printed gives the parts back exactly for readable ones. */
  lemma ParseReadsBackExactly(repository: string, tag: Option<string>, digest: Option<string>)
    requires Trim(PrintImageReference(repository, tag, digest)) == PrintImageReference(repository, tag, digest)
    ensures ParseImageReference(PrintImageReference(repository, tag, digest)) == Reference(repository, OrEmpty(tag), OrEmpty(digest))
       <==> Readable(repository, tag)
  {
    var name, text := PrintNameAndTag(repository, tag), PrintImageReference(repository, tag, digest);
    NameHasAtIff(repository, tag);
    if '@' in name {
      PartsHaveNoAt(text);
    } else {
      NameAndTagReadsBack(repository, tag, OrEmpty(digest));
      SplitAtDigest(name, digest);
    }
  }

  lemma NameHasAtIff(repository: string, tag: Option<string>)
    ensures '@' in PrintNameAndTag(repository, tag) <==> '@' in repository || (tag.Some? && '@' in tag.value)
  {
    var name := PrintNameAndTag(repository, tag);
    assert forall k | 0 <= k < |repository| :: name[k] == repository[k];
    assert tag.Some? ==> forall k | 0 <= k < |tag.value| :: name[|repository| + 1 + k] == tag.value[k];
  }

  /** A digest is cut off at the first '@'. */
  lemma SplitAtDigest(name: string, digest: Option<string>)
    requires '@' !in name
    requires var text := name + if digest.Some? then "@" + digest.value else ""; Trim(text) == text
    ensures ParseImageReference(name + if digest.Some? then "@" + digest.value else "") == ParseNameAndTag(name, OrEmpty(digest))
  {
    var text := name + if digest.Some? then "@" + digest.value else "";
    assert forall k | 0 <= k < |name| :: text[k] == name[k];
    if digest.Some? {
      assert text[|name|] == '@' && text[..|name|] == name && text[|name| + 1..] == digest.value;
      assert IndexOf(text, '@') == Some(|name|);
    } else {
      assert text == name;
    }
  }

  lemma PartsHaveNoAt(text: string)
    ensures var parsed := ParseImageReference(text); '@' !in parsed.repository && '@' !in parsed.tag
  {
    var ref := Trim(text);
    match IndexOf(ref, '@')
    case None =>
    case Some(at) => assert forall k | 0 <= k < at :: ref[..at][k] == ref[k];
  }

  // ----- Resolution status -----

  const OFFICIAL_REPOSITORY := "vllm/vllm-openai"

  datatype ImageStatus = ImageStatus(requested: string, resolved: string, repository: string, tag: string, digest: string)

  /** The image built in for a vLLM version, which is set at build time. */
  function DefaultImage(version: string): string {
    OFFICIAL_REPOSITORY + ":" + version
  }

  predicate ValidVersion(version: string) {
    version != "" && Trim(DefaultImage(version)) == DefaultImage(version) && !Blank(version)
    && ':' !in version && '/' !in version && '@' !in version
  }

  predicate ShouldResolve(ref: Reference) {
    !Blank(ref.tag) && Blank(ref.digest)
  }

  predicate Reusable(current: Option<ImageStatus>, requested: string) {
    && current.Some? && Trim(current.value.requested) == Trim(requested)
    && !Blank(current.value.resolved) && !Blank(current.value.digest)
  }

  predicate UsableAnswer(answer: Option<ImageStatus>) {
    answer.Some? && !Blank(answer.value.resolved) && !Blank(answer.value.digest)
  }

  function OrElse(s: string, otherwise: string): string {
    if s != "" then s else otherwise
  }

  /** applyResolvedImage. */
  function ApplyResolved(status: ImageStatus, r: ImageStatus): ImageStatus {
    ImageStatus(OrElse(r.requested, status.requested), OrElse(r.resolved, status.resolved),
                OrElse(r.repository, status.repository), OrElse(r.tag, status.tag), OrElse(r.digest, status.digest))
  }

  datatype Resolution = Resolution(image: ImageStatus, failed: bool)

  /** setImageResolutionStatus: the image status it stores and whether it fails the pass. */
  function ResolveImage(override: string, current: Option<ImageStatus>, answer: Option<ImageStatus>, version: string): Resolution {
    var imageRef := OrElse(override, DefaultImage(version));
    var ref := ParseImageReference(imageRef);
    var status := ImageStatus(imageRef, "", ref.repository, ref.tag, ref.digest);
    if !ShouldResolve(ref) then Resolution(status.(resolved := imageRef), false)
    else if Reusable(current, imageRef) then
      Resolution(status.(resolved := current.value.resolved, digest := current.value.digest), false)
    else if UsableAnswer(answer) then Resolution(ApplyResolved(status, answer.value), false)
    else Resolution(status, override == "")
  }

  /** getImage: the image a pod template is rendered with. */
  function GetImage(override: string, image: Option<ImageStatus>, version: string): string {
    if override != "" then override
    else if image.Some? && !Blank(image.value.resolved) then Trim(image.value.resolved)
    else DefaultImage(version)
  }

  /** RemoteImageResolver: what it makes of the digest the registry reports, if it reports one. */
  function RemoteResolve(imageRef: string, digest: Option<string>): Option<ImageStatus> {
    var requested := Trim(imageRef);
    if requested == "" || digest.None? then None
    else
      var ref := ParseImageReference(requested);
      Some(ImageStatus(requested, ref.repository + "@" + digest.value, ref.repository, ref.tag, digest.value))
  }

  /** The image status of a ModelDeployment while a pass works on it. */
  class ImageState {
    var image: Option<ImageStatus>

    constructor (image: Option<ImageStatus>)
      ensures this.image == image
    {
      this.image := image;
    }

    method SetImageResolutionStatus(override: string, answer: Option<ImageStatus>, version: string) returns (failed: bool)
      modifies this
      ensures image.Some? && Resolution(image.value, failed) == ResolveImage(override, old(image), answer, version)
    {
      var imageRef := override;
      var usingProviderDefault := imageRef == "";
      if usingProviderDefault {
        imageRef := DefaultImage(version);
      }
      var ref := ParseImageReference(imageRef);
      var status := ImageStatus(imageRef, "", ref.repository, ref.tag, ref.digest);
      if ShouldResolve(ref) {
        if Reusable(image, imageRef) {
          status := status.(resolved := image.value.resolved);
          status := status.(digest := image.value.digest);
          image := Some(status);
          return false;
        }
        if !UsableAnswer(answer) {
          image := Some(status);
          return usingProviderDefault;
        }
        status := ApplyResolved(status, answer.value);
      } else {
        status := status.(resolved := imageRef);
      }
      image := Some(status);
      return false;
    }
  }

  // ----- Pinning -----

  /** One pass: the override in the spec, the answer of the resolver, and whether the status is stored. */
  datatype Pass = Pass(override: string, answer: Option<ImageStatus>, storable: bool)

  function StoredAfter(current: Option<ImageStatus>, pass: Pass, version: string): Option<ImageStatus> {
    if pass.storable then Some(ResolveImage(pass.override, current, pass.answer, version).image) else current
  }

  /** The image a pass renders; nothing is rendered when resolution fails. */
  function RenderedBy(current: Option<ImageStatus>, pass: Pass, version: string): Option<string> {
    var resolution := ResolveImage(pass.override, current, pass.answer, version);
    if resolution.failed then None else Some(GetImage(pass.override, Some(resolution.image), version))
  }

  function StoredAfterAll(start: Option<ImageStatus>, passes: seq<Pass>, version: string): Option<ImageStatus> {
    if passes == [] then start
    else StoredAfter(StoredAfterAll(start, passes[..|passes| - 1], version), passes[|passes| - 1], version)
  }

  lemma DefaultImageParts(version: string)
    requires ValidVersion(version)
    ensures ParseImageReference(DefaultImage(version)) == Reference(OFFICIAL_REPOSITORY, version, "")
    ensures ShouldResolve(ParseImageReference(DefaultImage(version)))
    ensures '@' !in DefaultImage(version)
  {
    assert DefaultImage(version) == PrintImageReference(OFFICIAL_REPOSITORY, Some(version), None);
    ParseReadsBackExactly(OFFICIAL_REPOSITORY, Some(version), None);
  }

  /** The version the repository ships with satisfies what is asked of one. */
  lemma ShippedVersionIsValid()
    ensures ValidVersion("cu130-nightly") && DefaultImage("cu130-nightly") == "vllm/vllm-openai:cu130-nightly"
  {
    assert DefaultImage("cu130-nightly") == "vllm/vllm-openai:cu130-nightly";
    NothingToTrim("cu130-nightly");
    NothingToTrim("vllm/vllm-openai:cu130-nightly");
  }

  /** A digest for the default image is in the status. */
  predicate Pinned(image: Option<ImageStatus>, resolved: string, version: string) {
    Reusable(image, DefaultImage(version)) && image.value.resolved == resolved
  }

  /** Once pinned, every later pass without an override renders the pinned digest and keeps it stored,
      whatever the registry answers and whether or not status updates succeed. */
  lemma {:induction false} PinnedForGood(start: Option<ImageStatus>, passes: seq<Pass>, last: Pass, resolved: string, version: string)
    requires ValidVersion(version) && Pinned(start, resolved, version)
    requires last.override == "" && forall pass <- passes :: pass.override == ""
    ensures var current := StoredAfterAll(start, passes, version);
            Pinned(current, resolved, version) && RenderedBy(current, last, version) == Some(Trim(resolved))
    decreases |passes|
  {
    DefaultImageParts(version);
    if passes != [] {
      var prefix := passes[..|passes| - 1];
      assert forall pass <- prefix :: pass in passes;
      assert passes[|passes| - 1] in passes;
      PinnedForGood(start, prefix, last, resolved, version);
    }
  }

  /** The stored status, when it could be reused for the default image, names a digest. */
  predicate NamesDigest(image: Option<ImageStatus>, version: string) {
    Reusable(image, DefaultImage(version)) ==> '@' in image.value.resolved
  }

  /** The resolver's answer is what RemoteImageResolver makes of some registry's answer. */
  ghost predicate FromRegistry(pass: Pass, version: string) {
    exists digest :: pass.answer == RemoteResolve(OrElse(pass.override, DefaultImage(version)), digest)
  }

  lemma RemoteAnswerNamesDigest(imageRef: string, digest: Option<string>)
    ensures var answer := RemoteResolve(imageRef, digest); answer.Some? ==> '@' in answer.value.resolved
  {
  }

  /** A status that asks for the default image does so for a reference that has to be resolved. */
  lemma DefaultHasToBeResolved(imageRef: string, version: string)
    requires ValidVersion(version) && Trim(imageRef) == Trim(DefaultImage(version))
    ensures ShouldResolve(ParseImageReference(imageRef))
  {
    DefaultImageParts(version);
    assert ParseImageReference(imageRef) == ParseImageReference(DefaultImage(version));
  }

  lemma ResolutionNamesDigest(current: Option<ImageStatus>, pass: Pass, version: string)
    requires ValidVersion(version) && NamesDigest(current, version) && FromRegistry(pass, version)
    ensures var resolution := ResolveImage(pass.override, current, pass.answer, version);
            && NamesDigest(Some(resolution.image), version)
            && (pass.override == "" && !resolution.failed ==> '@' in resolution.image.resolved && !Blank(resolution.image.resolved))
  {
    var imageRef := OrElse(pass.override, DefaultImage(version));
    var digest :| pass.answer == RemoteResolve(imageRef, digest);
    RemoteAnswerNamesDigest(imageRef, digest);
    if Trim(imageRef) == Trim(DefaultImage(version)) {
      DefaultHasToBeResolved(imageRef, version);
      assert Reusable(current, imageRef) <==> Reusable(current, DefaultImage(version));
    }
  }

  /** From a fresh deployment on, with overrides coming and going, no pass without an override ever renders
      the bare default tag: it renders a digest or nothing. */
  lemma {:induction false} BareDefaultIsNeverRendered(passes: seq<Pass>, last: Pass, version: string)
    requires ValidVersion(version)
    requires FromRegistry(last, version) && forall pass <- passes :: FromRegistry(pass, version)
    ensures var current := StoredAfterAll(None, passes, version);
            && NamesDigest(current, version)
            && (last.override == "" ==> match RenderedBy(current, last, version)
                                        case None => true
                                        case Some(image) => '@' in image && image != DefaultImage(version))
    decreases |passes|
  {
    DefaultImageParts(version);
    if passes != [] {
      var prefix, pass := passes[..|passes| - 1], passes[|passes| - 1];
      assert forall q <- prefix :: q in passes;
      BareDefaultIsNeverRendered(prefix, pass, version);
      ResolutionNamesDigest(StoredAfterAll(None, prefix, version), pass, version);
    }
    var current := StoredAfterAll(None, passes, version);
    ResolutionNamesDigest(current, last, version);
    TrimKeeps(ResolveImage(last.override, current, last.answer, version).image.resolved, '@');
  }

  // ----- What a pass makes of every other image -----

  lemma TrimIsStable(s: string)
    ensures Trim(Trim(s)) == Trim(s)
  {
    TrimLeftIsStable(s);
    TrimRightIsStable(TrimLeft(s));
    TrimRightKeepsStart(TrimLeft(s));
  }

  lemma {:induction false} TrimLeftIsStable(s: string)
    ensures TrimLeft(s) != "" ==> !IsSpace(TrimLeft(s)[0])
    decreases |s|
  {
    if s != "" && IsSpace(s[0]) {
      TrimLeftIsStable(s[1..]);
    }
  }

  lemma {:induction false} TrimRightIsStable(s: string)
    ensures TrimRight(s) != "" ==> !IsSpace(TrimRight(s)[|TrimRight(s)| - 1])
    decreases |s|
  {
    if s != "" && IsSpace(s[|s| - 1]) {
      TrimRightIsStable(s[..|s| - 1]);
    }
  }

  lemma {:induction false} TrimRightKeepsStart(s: string)
    ensures TrimRight(s) != "" ==> s != "" && TrimRight(s)[0] == s[0]
    decreases |s|
  {
    if s != "" && IsSpace(s[|s| - 1]) {
      TrimRightKeepsStart(s[..|s| - 1]);
    }
  }

  /** White space around a reference does not matter to its parts. */
  lemma PartsIgnoreOuterSpace(imageRef: string)
    ensures ParseImageReference(imageRef) == ParseImageReference(Trim(imageRef))
  {
    TrimIsStable(imageRef);
  }

  /** An override is rendered exactly as given and never fails a pass, whatever is stored and whatever the registry says. */
  lemma OverrideIsRenderedAsGiven(current: Option<ImageStatus>, pass: Pass, version: string)
    requires pass.override != ""
    ensures RenderedBy(current, pass, version) == Some(pass.override)
  {
  }

  /** A stored digest is never carried over to another reference than the one it was resolved for. */
  lemma DigestIsNotCarriedOver(override: string, current: Option<ImageStatus>, answer: Option<ImageStatus>, version: string)
    requires current.Some? && Trim(current.value.requested) != Trim(if override != "" then override else DefaultImage(version))
    ensures ResolveImage(override, current, answer, version) == ResolveImage(override, None, answer, version)
  {
  }

  /** A reference without a tag or with a digest is not resolved: it is its own answer, and nothing stored or answered matters. */
  lemma UntaggedOrPinnedIsItsOwnAnswer(override: string, current: Option<ImageStatus>, answer: Option<ImageStatus>, version: string)
    requires override != "" && (Blank(ParseImageReference(override).tag) || !Blank(ParseImageReference(override).digest))
    ensures var ref, resolution := ParseImageReference(override), ResolveImage(override, current, answer, version);
            !resolution.failed && resolution.image == ImageStatus(override, override, ref.repository, ref.tag, ref.digest)
  {
  }

  /** A tagged reference that is not resolved yet: a digest the registry reports is stored behind its repository, without
      the tag; without one the status keeps the reference unresolved, and only the default image fails the pass. */
  lemma TaggedReferenceIsResolved(override: string, current: Option<ImageStatus>, digest: Option<string>, version: string)
    requires var imageRef := if override != "" then override else DefaultImage(version);
             && !Blank(ParseImageReference(imageRef).tag) && Blank(ParseImageReference(imageRef).digest)
             && !Reusable(current, imageRef)
             && (digest.Some? ==> !Blank(digest.value) && !Blank(ParseImageReference(imageRef).repository + "@" + digest.value))
    ensures var imageRef := if override != "" then override else DefaultImage(version);
            var ref, resolution := ParseImageReference(imageRef), ResolveImage(override, current, RemoteResolve(imageRef, digest), version);
            if digest.Some? then
              !resolution.failed && resolution.image == ImageStatus(Trim(imageRef), ref.repository + "@" + digest.value, ref.repository, ref.tag, digest.value)
            else
              resolution.failed == (override == "") && resolution.image == ImageStatus(imageRef, "", ref.repository, ref.tag, ref.digest)
  {
    var imageRef := if override != "" then override else DefaultImage(version);
    PartsIgnoreOuterSpace(imageRef);
  }

  /** A digest stored for this very reference is taken over, and the registry's answer does not matter. */
  lemma StoredDigestIsReused(override: string, current: ImageStatus, answer: Option<ImageStatus>, version: string)
    requires var imageRef := if override != "" then override else DefaultImage(version);
             && ShouldResolve(ParseImageReference(imageRef))
             && Trim(current.requested) == Trim(imageRef) && !Blank(current.resolved) && !Blank(current.digest)
    ensures var imageRef := if override != "" then override else DefaultImage(version);
            var ref := ParseImageReference(imageRef);
            ResolveImage(override, Some(current), answer, version)
              == Resolution(ImageStatus(imageRef, current.resolved, ref.repository, ref.tag, current.digest), false)
  {
  }
}
