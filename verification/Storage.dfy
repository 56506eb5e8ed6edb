/** The storage rules of the create-deployment schema and the defaults the preview applies. */
module Storage {
  import opened JsonValues

  datatype Purpose = ModelCache | CompilationCache | Custom

  datatype Volume = Volume(
    name: string, purpose: Purpose, mountPath: Option<string>, readOnly: bool, size: Option<string>,
    claimName: Option<string>, storageClassName: Option<string>, accessMode: Option<string>)

  datatype Issue =
    | DuplicateName(i: nat) | DuplicateMountPath(i: nat) | DuplicateClaimName(i: nat)
    | RelativeMountPath(i: nat) | MissingMountPath(i: nat) | SystemMountPath(i: nat)
    | MissingClaimName(i: nat) | ReadOnlyWithSize(i: nat) | ForeignClaimName(i: nat)
    | AccessModeWithoutSize(i: nat) | StorageClassWithoutSize(i: nat) | ClaimNameTooLong(i: nat)
    | TooManyModelCaches | TooManyCompilationCaches

  const SYSTEM_PATHS: seq<string> := ["/dev", "/proc", "/sys", "/etc", "/var/run"]
  const MAX_CLAIM_NAME := 253

  /** An optional string as JavaScript's || sees it: absent and empty are the same. */
  function Text(s: Option<string>): string {
    if s.Some? then s.value else ""
  }

  predicate Truthy(s: Option<string>) {
    Text(s) != ""
  }

  function DefaultMountPath(p: Purpose): string {
    match p case ModelCache => "/model-cache" case CompilationCache => "/compilation-cache" case Custom => ""
  }

  function AutoClaimName(deployment: string, vol: Volume): string {
    deployment + "-" + vol.name
  }

  function ResolvedMountPath(vol: Volume): string {
    if Truthy(vol.mountPath) then Text(vol.mountPath) else DefaultMountPath(vol.purpose)
  }

  function ResolvedClaimName(deployment: string, vol: Volume): string {
    if Truthy(vol.claimName) then Text(vol.claimName)
    else if Truthy(vol.size) then AutoClaimName(deployment, vol)
    else ""
  }

  predicate Under(path: string, sysPath: string) {
    path == sysPath || sysPath + "/" <= path
  }

  predicate SystemPath(path: string) {
    exists k | 0 <= k < |SYSTEM_PATHS| :: Under(path, SYSTEM_PATHS[k])
  }

  // ----- What the rules ask for -----

  /** Rules 4 to 6 and 8 to 13, which look at one volume. */
  predicate VolumeAccepted(deployment: string, vol: Volume) {
    && (Truthy(vol.mountPath) ==> "/" <= Text(vol.mountPath) && !SystemPath(Text(vol.mountPath)))
    && (vol.purpose.Custom? ==> Truthy(vol.mountPath))
    && (if Truthy(vol.size) then
          && !vol.readOnly
          && (if Truthy(vol.claimName) then Text(vol.claimName) == AutoClaimName(deployment, vol)
              else |AutoClaimName(deployment, vol)| <= MAX_CLAIM_NAME)
        else
          Truthy(vol.claimName) && !Truthy(vol.accessMode) && vol.storageClassName.None?)
  }

  function Names(vols: seq<Volume>): seq<string> {
    seq(|vols|, i requires 0 <= i < |vols| => vols[i].name)
  }

  function MountPaths(vols: seq<Volume>): seq<string> {
    seq(|vols|, i requires 0 <= i < |vols| => ResolvedMountPath(vols[i]))
  }

  function ClaimNames(deployment: string, vols: seq<Volume>): seq<string> {
    seq(|vols|, i requires 0 <= i < |vols| => ResolvedClaimName(deployment, vols[i]))
  }

  /** Rules 1 to 3: no two of them are the same text, empty ones apart where they do not count. */
  predicate Distinct(texts: seq<string>, emptyCounts: bool) {
    forall i, j | 0 <= i < j < |texts| && (emptyCounts || texts[j] != "") :: texts[i] != texts[j]
  }

  /** Rule 7. */
  predicate AtMostOne(vols: seq<Volume>, p: Purpose) {
    forall i, j | 0 <= i < j < |vols| :: !(vols[i].purpose == p && vols[j].purpose == p)
  }

  predicate Accepted(deployment: string, vols: seq<Volume>) {
    && Distinct(Names(vols), true) && Distinct(MountPaths(vols), false) && Distinct(ClaimNames(deployment, vols), false)
    && (forall i | 0 <= i < |vols| :: VolumeAccepted(deployment, vols[i]))
    && AtMostOne(vols, ModelCache) && AtMostOne(vols, CompilationCache)
  }

  // ----- Which issue stands for what -----

  /** The text was met before position i. */
  predicate Repeats(texts: seq<string>, i: nat, emptyCounts: bool) {
    i < |texts| && (emptyCounts || texts[i] != "") && exists j | 0 <= j < i :: texts[j] == texts[i]
  }

  /** What an issue says about the i-th volume by itself. */
  predicate VolumeBreaks(deployment: string, vol: Volume, i: nat, issue: Issue) {
    match issue
    case RelativeMountPath(k) => k == i && Truthy(vol.mountPath) && !("/" <= Text(vol.mountPath))
    case MissingMountPath(k) => k == i && vol.purpose.Custom? && !Truthy(vol.mountPath)
    case SystemMountPath(k) => k == i && Truthy(vol.mountPath) && SystemPath(Text(vol.mountPath))
    case MissingClaimName(k) => k == i && !Truthy(vol.size) && !Truthy(vol.claimName)
    case ReadOnlyWithSize(k) => k == i && Truthy(vol.size) && vol.readOnly
    case ForeignClaimName(k) =>
      k == i && Truthy(vol.size) && Truthy(vol.claimName) && Text(vol.claimName) != AutoClaimName(deployment, vol)
    case AccessModeWithoutSize(k) => k == i && Truthy(vol.accessMode) && !Truthy(vol.size)
    case StorageClassWithoutSize(k) => k == i && vol.storageClassName.Some? && !Truthy(vol.size)
    case ClaimNameTooLong(k) =>
      k == i && Truthy(vol.size) && !Truthy(vol.claimName) && |AutoClaimName(deployment, vol)| > MAX_CLAIM_NAME
    case _ => false
  }

  /** What an issue says about the list. */
  predicate Breaks(deployment: string, vols: seq<Volume>, issue: Issue) {
    match issue
    case DuplicateName(i) => Repeats(Names(vols), i, true)
    case DuplicateMountPath(i) => Repeats(MountPaths(vols), i, false)
    case DuplicateClaimName(i) => Repeats(ClaimNames(deployment, vols), i, false)
    case TooManyModelCaches => !AtMostOne(vols, ModelCache)
    case TooManyCompilationCaches => !AtMostOne(vols, CompilationCache)
    case _ => issue.i < |vols| && VolumeBreaks(deployment, vols[issue.i], issue.i, issue)
  }

  lemma VolumeAcceptedIffNothingBreaks(deployment: string, vol: Volume, i: nat)
    ensures VolumeAccepted(deployment, vol) <==> forall issue :: !VolumeBreaks(deployment, vol, i, issue)
  {
    if forall issue :: !VolumeBreaks(deployment, vol, i, issue) {
      assert !VolumeBreaks(deployment, vol, i, RelativeMountPath(i)) && !VolumeBreaks(deployment, vol, i, MissingMountPath(i));
      assert !VolumeBreaks(deployment, vol, i, SystemMountPath(i)) && !VolumeBreaks(deployment, vol, i, MissingClaimName(i));
      assert !VolumeBreaks(deployment, vol, i, ReadOnlyWithSize(i)) && !VolumeBreaks(deployment, vol, i, ForeignClaimName(i));
      assert !VolumeBreaks(deployment, vol, i, AccessModeWithoutSize(i)) && !VolumeBreaks(deployment, vol, i, StorageClassWithoutSize(i));
      assert !VolumeBreaks(deployment, vol, i, ClaimNameTooLong(i));
    }
  }

  /** A list is accepted exactly when there is nothing to report about it. */
  lemma AcceptedIffNothingBreaks(deployment: string, vols: seq<Volume>)
    ensures Accepted(deployment, vols) <==> forall issue :: !Breaks(deployment, vols, issue)
  {
    if Accepted(deployment, vols) {
      forall issue
        ensures !Breaks(deployment, vols, issue)
      {
        NothingBreaks(deployment, vols, issue);
      }
    } else {
      var issue := SomethingBreaks(deployment, vols);
    }
  }

  lemma NothingBreaks(deployment: string, vols: seq<Volume>, issue: Issue)
    requires Accepted(deployment, vols)
    ensures !Breaks(deployment, vols, issue)
  {
  }

  lemma SomethingBreaks(deployment: string, vols: seq<Volume>) returns (issue: Issue)
    requires !Accepted(deployment, vols)
    ensures Breaks(deployment, vols, issue)
  {
    DistinctIffNoneRepeats(Names(vols), true);
    DistinctIffNoneRepeats(MountPaths(vols), false);
    DistinctIffNoneRepeats(ClaimNames(deployment, vols), false);
    if !Distinct(Names(vols), true) {
      var i: nat :| Repeats(Names(vols), i, true);
      issue := DuplicateName(i);
    } else if !Distinct(MountPaths(vols), false) {
      var i: nat :| Repeats(MountPaths(vols), i, false);
      issue := DuplicateMountPath(i);
    } else if !Distinct(ClaimNames(deployment, vols), false) {
      var i: nat :| Repeats(ClaimNames(deployment, vols), i, false);
      issue := DuplicateClaimName(i);
    } else if !AtMostOne(vols, ModelCache) {
      issue := TooManyModelCaches;
    } else if !AtMostOne(vols, CompilationCache) {
      issue := TooManyCompilationCaches;
    } else {
      var i :| 0 <= i < |vols| && !VolumeAccepted(deployment, vols[i]);
      VolumeAcceptedIffNothingBreaks(deployment, vols[i], i);
      issue :| VolumeBreaks(deployment, vols[i], i, issue);
    }
  }

  lemma DistinctIffNoneRepeats(texts: seq<string>, emptyCounts: bool)
    ensures Distinct(texts, emptyCounts) <==> forall i: nat :: !Repeats(texts, i, emptyCounts)
  {
    if !Distinct(texts, emptyCounts) {
      var i, j :| 0 <= i < j < |texts| && (emptyCounts || texts[j] != "") && texts[i] == texts[j];
      assert Repeats(texts, j, emptyCounts);
    }
  }

  // ----- The schema's code -----

  /** One of the three uniqueness rules: a growing set of texts, and the positions that were met before. */
  method FindRepeats(texts: seq<string>, emptyCounts: bool) returns (repeats: seq<nat>)
    ensures forall d: nat :: d in repeats <==> Repeats(texts, d, emptyCounts)
  {
    repeats := [];
    var met: set<string> := {};
    var j := 0;
    while j < |texts|
      invariant 0 <= j <= |texts|
      invariant forall t :: t in met <==> (emptyCounts || t != "") && t in texts[..j]
      invariant forall d: nat :: d in repeats <==> d < j && Repeats(texts, d, emptyCounts)
    {
      assert texts[..j + 1] == texts[..j] + [texts[j]];
      assert texts[j] in texts[..j] <==> exists i | 0 <= i < j :: texts[i] == texts[j];
      if emptyCounts || texts[j] != "" {
        if texts[j] in met {
          repeats := repeats + [j];
        }
        met := met + {texts[j]};
      }
      j := j + 1;
    }
  }

  method CheckVolume(deployment: string, vol: Volume, i: nat) returns (issues: seq<Issue>)
    ensures forall issue :: issue in issues <==> VolumeBreaks(deployment, vol, i, issue)
  {
    var paths := CheckPath(vol, i);
    var claims := CheckClaim(deployment, vol, i);
    issues := paths + claims;
  }

  predicate AboutPath(issue: Issue) {
    issue.RelativeMountPath? || issue.MissingMountPath? || issue.SystemMountPath?
  }

  /** Rules 4 to 6. */
  method CheckPath(vol: Volume, i: nat) returns (issues: seq<Issue>)
    ensures forall issue :: issue in issues <==> AboutPath(issue) && VolumeBreaks("", vol, i, issue)
  {
    issues := [];
    if Truthy(vol.mountPath) && !("/" <= Text(vol.mountPath)) {
      issues := issues + [RelativeMountPath(i)];
    }
    if vol.purpose.Custom? && !Truthy(vol.mountPath) {
      issues := issues + [MissingMountPath(i)];
    }
    if Truthy(vol.mountPath) {
      ghost var before := issues;
      var k := 0;
      while k < |SYSTEM_PATHS|
        invariant 0 <= k <= |SYSTEM_PATHS|
        invariant issues == before
        invariant forall j | 0 <= j < k :: !Under(Text(vol.mountPath), SYSTEM_PATHS[j])
      {
        if Under(Text(vol.mountPath), SYSTEM_PATHS[k]) {
          issues := issues + [SystemMountPath(i)];
          break;
        }
        k := k + 1;
      }
    }
  }

  /** Rules 8 to 13. */
  method CheckClaim(deployment: string, vol: Volume, i: nat) returns (issues: seq<Issue>)
    ensures forall issue :: issue in issues <==> !AboutPath(issue) && VolumeBreaks(deployment, vol, i, issue)
  {
    issues := [];
    if !Truthy(vol.size) && !Truthy(vol.claimName) {
      issues := issues + [MissingClaimName(i)];
    }
    if Truthy(vol.size) && vol.readOnly {
      issues := issues + [ReadOnlyWithSize(i)];
    }
    if Truthy(vol.size) && Truthy(vol.claimName) {
      if Text(vol.claimName) != AutoClaimName(deployment, vol) {
        issues := issues + [ForeignClaimName(i)];
      }
    }
    if Truthy(vol.accessMode) && !Truthy(vol.size) {
      issues := issues + [AccessModeWithoutSize(i)];
    }
    if vol.storageClassName.Some? && !Truthy(vol.size) {
      issues := issues + [StorageClassWithoutSize(i)];
    }
    if Truthy(vol.size) && !Truthy(vol.claimName) && |AutoClaimName(deployment, vol)| > MAX_CLAIM_NAME {
      issues := issues + [ClaimNameTooLong(i)];
    }
  }

  function Count(vols: seq<Volume>, p: Purpose): nat {
    if vols == [] then 0 else Count(vols[..|vols| - 1], p) + if vols[|vols| - 1].purpose == p then 1 else 0
  }

  lemma {:induction false} CountAtMostOne(vols: seq<Volume>, p: Purpose)
    ensures Count(vols, p) <= 1 <==> AtMostOne(vols, p)
    ensures Count(vols, p) == 0 <==> forall i | 0 <= i < |vols| :: vols[i].purpose != p
    decreases |vols|
  {
    if vols != [] {
      CountAtMostOne(vols[..|vols| - 1], p);
    }
  }

  predicate IsRepeat(issue: Issue) {
    issue.DuplicateName? || issue.DuplicateMountPath? || issue.DuplicateClaimName?
  }

  predicate IsCount(issue: Issue) {
    issue.TooManyModelCaches? || issue.TooManyCompilationCaches?
  }

  /** Rules 1 to 3. */
  method CheckUniqueness(deployment: string, vols: seq<Volume>) returns (issues: seq<Issue>)
    ensures forall issue :: issue in issues <==> IsRepeat(issue) && Breaks(deployment, vols, issue)
  {
    var names := FindRepeats(Names(vols), true);
    var paths := FindRepeats(MountPaths(vols), false);
    var claims := FindRepeats(ClaimNames(deployment, vols), false);
    var byName := seq(|names|, k requires 0 <= k < |names| => DuplicateName(names[k]));
    var byPath := seq(|paths|, k requires 0 <= k < |paths| => DuplicateMountPath(paths[k]));
    var byClaim := seq(|claims|, k requires 0 <= k < |claims| => DuplicateClaimName(claims[k]));
    issues := byName + byPath + byClaim;
    forall issue
      ensures issue in byName <==> issue.DuplicateName? && issue.i in names
      ensures issue in byPath <==> issue.DuplicateMountPath? && issue.i in paths
      ensures issue in byClaim <==> issue.DuplicateClaimName? && issue.i in claims
    {
      if issue.DuplicateName? && issue.i in names {
        var k :| 0 <= k < |names| && names[k] == issue.i;
        assert byName[k] == issue;
      }
      if issue.DuplicateMountPath? && issue.i in paths {
        var k :| 0 <= k < |paths| && paths[k] == issue.i;
        assert byPath[k] == issue;
      }
      if issue.DuplicateClaimName? && issue.i in claims {
        var k :| 0 <= k < |claims| && claims[k] == issue.i;
        assert byClaim[k] == issue;
      }
    }
  }

  /** Rules 4 to 13 over all volumes, counting the singleton purposes on the way. */
  method CheckVolumes(deployment: string, vols: seq<Volume>)
    returns (issues: seq<Issue>, modelCaches: nat, compilationCaches: nat)
    ensures forall issue :: issue in issues <==> !IsRepeat(issue) && !IsCount(issue) && Breaks(deployment, vols, issue)
    ensures modelCaches == Count(vols, ModelCache) && compilationCaches == Count(vols, CompilationCache)
  {
    issues, modelCaches, compilationCaches := [], 0, 0;
    var i := 0;
    while i < |vols|
      invariant 0 <= i <= |vols|
      invariant modelCaches == Count(vols[..i], ModelCache)
      invariant compilationCaches == Count(vols[..i], CompilationCache)
      invariant forall issue :: issue in issues <==>
                  !IsRepeat(issue) && !IsCount(issue) && issue.i < i && Breaks(deployment, vols, issue)
    {
      assert vols[..i + 1][..i] == vols[..i];
      var found := CheckVolume(deployment, vols[i], i);
      issues := issues + found;
      if vols[i].purpose == ModelCache {
        modelCaches := modelCaches + 1;
      }
      if vols[i].purpose == CompilationCache {
        compilationCaches := compilationCaches + 1;
      }
      i := i + 1;
    }
    assert vols[..|vols|] == vols;
  }

  /** The superRefine rules report exactly what breaks them, so no issue is raised exactly for the accepted lists. */
  method Validate(deployment: string, vols: seq<Volume>) returns (issues: seq<Issue>)
    ensures forall issue :: issue in issues <==> Breaks(deployment, vols, issue)
    ensures issues == [] <==> Accepted(deployment, vols)
  {
    issues := CheckUniqueness(deployment, vols);
    var found, modelCaches, compilationCaches := CheckVolumes(deployment, vols);
    issues := issues + found;
    CountAtMostOne(vols, ModelCache);
    CountAtMostOne(vols, CompilationCache);
    if modelCaches > 1 {
      issues := issues + [TooManyModelCaches];
    }
    if compilationCaches > 1 {
      issues := issues + [TooManyCompilationCaches];
    }
    AcceptedIffNothingBreaks(deployment, vols);
    if issues != [] {
      assert issues[0] in issues;
    }
  }

  // ----- Preview defaulting -----

  /** The defaults of one volume, filled into a fresh copy. */
  function Defaulted(deployment: string, vol: Volume): Volume {
    var mounted := if Truthy(vol.mountPath) || vol.purpose.Custom? then vol else vol.(mountPath := Some(DefaultMountPath(vol.purpose)));
    if !Truthy(vol.size) then mounted
    else
      mounted.(claimName := if Truthy(vol.claimName) then vol.claimName else Some(AutoClaimName(deployment, vol)),
               accessMode := if Truthy(vol.accessMode) then vol.accessMode else Some("ReadWriteMany"))
  }

  function DefaultedAll(deployment: string, vols: seq<Volume>): seq<Volume> {
    seq(|vols|, i requires 0 <= i < |vols| => Defaulted(deployment, vols[i]))
  }

  lemma DefaultPathsAreNotSystemPaths(p: Purpose)
    requires !p.Custom?
    ensures "/" <= DefaultMountPath(p) && !SystemPath(DefaultMountPath(p)) && DefaultMountPath(p) != ""
  {
    var path := DefaultMountPath(p);
    assert path[1] == 'm' || path[1] == 'c';
    forall k | 0 <= k < |SYSTEM_PATHS|
      ensures !Under(path, SYSTEM_PATHS[k])
    {
      assert SYSTEM_PATHS[k][1] == 'd' || SYSTEM_PATHS[k][1] == 'p' || SYSTEM_PATHS[k][1] == 's' || SYSTEM_PATHS[k][1] == 'e' || SYSTEM_PATHS[k][1] == 'v';
      assert (SYSTEM_PATHS[k] + "/")[1] == SYSTEM_PATHS[k][1];
    }
  }

  lemma DefaultedVolume(deployment: string, vol: Volume)
    requires VolumeAccepted(deployment, vol)
    ensures var d := Defaulted(deployment, vol);
            && VolumeAccepted(deployment, d) && d.name == vol.name && d.purpose == vol.purpose
            && Text(d.mountPath) == ResolvedMountPath(d) == ResolvedMountPath(vol) != ""
            && Text(d.claimName) == ResolvedClaimName(deployment, d) == ResolvedClaimName(deployment, vol) != ""
            && "/" <= Text(d.mountPath) && !SystemPath(Text(d.mountPath))
  {
    if !vol.purpose.Custom? {
      DefaultPathsAreNotSystemPaths(vol.purpose);
    }
    assert AutoClaimName(deployment, vol)[|deployment|] == '-';
  }

  /** Defaulting what is already defaulted changes nothing. */
  lemma DefaultingIsIdempotent(deployment: string, vols: seq<Volume>)
    ensures DefaultedAll(deployment, DefaultedAll(deployment, vols)) == DefaultedAll(deployment, vols)
  {
    forall i | 0 <= i < |vols|
      ensures Defaulted(deployment, Defaulted(deployment, vols[i])) == Defaulted(deployment, vols[i])
    {
      var vol := vols[i];
      assert AutoClaimName(deployment, vol)[|deployment|] == '-';
      if !vol.purpose.Custom? {
        DefaultPathsAreNotSystemPaths(vol.purpose);
      }
    }
  }

  /** An accepted list stays accepted under the preview's defaults, and then every volume has an absolute
      mount path outside the system paths and a claim name, all of them pairwise distinct. */
  lemma DefaultedListIsAccepted(deployment: string, vols: seq<Volume>)
    requires Accepted(deployment, vols)
    ensures var ds := DefaultedAll(deployment, vols);
            && Accepted(deployment, ds)
            && (forall i | 0 <= i < |ds| :: Truthy(ds[i].mountPath) && Truthy(ds[i].claimName)
                                           && "/" <= Text(ds[i].mountPath) && !SystemPath(Text(ds[i].mountPath)))
            && (forall i, j | 0 <= i < j < |ds| :: Text(ds[i].mountPath) != Text(ds[j].mountPath)
                                                  && Text(ds[i].claimName) != Text(ds[j].claimName))
  {
    var ds := DefaultedAll(deployment, vols);
    forall i | 0 <= i < |vols|
      ensures VolumeAccepted(deployment, ds[i]) && ds[i].name == vols[i].name && ds[i].purpose == vols[i].purpose
      ensures Text(ds[i].mountPath) == MountPaths(ds)[i] == MountPaths(vols)[i] != ""
      ensures Text(ds[i].claimName) == ClaimNames(deployment, ds)[i] == ClaimNames(deployment, vols)[i] != ""
      ensures "/" <= Text(ds[i].mountPath) && !SystemPath(Text(ds[i].mountPath))
    {
      DefaultedVolume(deployment, vols[i]);
    }
    assert Names(ds) == Names(vols) && MountPaths(ds) == MountPaths(vols) && ClaimNames(deployment, ds) == ClaimNames(deployment, vols);
  }

  /** What the preview fills in, and that it touches nothing else: given values stay. */
  lemma DefaultsExactly(deployment: string, vol: Volume)
    ensures var d := Defaulted(deployment, vol);
            && d.mountPath == (if vol.mountPath.Some? && vol.mountPath.value != "" then vol.mountPath
                               else match vol.purpose
                                 case ModelCache => Some("/model-cache")
                                 case CompilationCache => Some("/compilation-cache")
                                 case Custom => vol.mountPath)
            && var created := vol.size.Some? && vol.size.value != "";
               && (created && (vol.claimName.None? || vol.claimName.value == "") ==> d.claimName == Some(deployment + "-" + vol.name))
               && (created && (vol.accessMode.None? || vol.accessMode.value == "") ==> d.accessMode == Some("ReadWriteMany"))
               && (!created || (vol.claimName.Some? && vol.claimName.value != "") ==> d.claimName == vol.claimName)
               && (!created || (vol.accessMode.Some? && vol.accessMode.value != "") ==> d.accessMode == vol.accessMode)
               && d.(mountPath := vol.mountPath, claimName := vol.claimName, accessMode := vol.accessMode) == vol
  {
  }

  /** The system paths and everything below them, but not their namesakes. */
  lemma SystemPathsExactly(path: string)
    ensures SystemPath(path) <==>
              || path in {"/dev", "/proc", "/sys", "/etc", "/var/run"}
              || "/dev/" <= path || "/proc/" <= path || "/sys/" <= path || "/etc/" <= path || "/var/run/" <= path
  {
    assert SYSTEM_PATHS == ["/dev", "/proc", "/sys", "/etc", "/var/run"];
    assert SystemPath(path) <==> Under(path, SYSTEM_PATHS[0]) || Under(path, SYSTEM_PATHS[1]) || Under(path, SYSTEM_PATHS[2])
                                 || Under(path, SYSTEM_PATHS[3]) || Under(path, SYSTEM_PATHS[4]);
    assert "/dev" + "/" == "/dev/" && "/proc" + "/" == "/proc/" && "/sys" + "/" == "/sys/";
    assert "/etc" + "/" == "/etc/" && "/var/run" + "/" == "/var/run/";
  }

  /** A claim name that is left to the controller has at most 253 characters. */
  lemma ClaimNamesFit(deployment: string, vol: Volume)
    requires vol.size.Some? && vol.size.value != "" && (vol.claimName.None? || vol.claimName.value == "")
    requires vol.mountPath.None? && vol.purpose.ModelCache? && !vol.readOnly
    ensures VolumeAccepted(deployment, vol) <==> |deployment| + 1 + |vol.name| <= 253
  {
  }
}
