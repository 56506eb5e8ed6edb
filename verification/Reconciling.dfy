/** One reconcile pass of the KubeRay, KAITO, llm-d and vLLM providers: what it does to the status of the
    ModelDeployment for every combination of answers it can get. */
module Reconciling {
  import opened JsonValues

  datatype Provider = KubeRay | Kaito | Llmd | Vllm

  datatype Phase = Unset | Pending | Deploying | Running | Failed | Terminating

  datatype Verdict = IsTrue | IsFalse

  datatype ConditionType = ProviderCompatible | ResourceCreated | Ready

  datatype Condition = Condition(status: Verdict, reason: string, message: string, since: nat, generation: nat)

  datatype Status = Status(
    phase: Phase, message: string, endpoint: Option<string>, replicas: Option<int>,
    resourceName: string, conditions: map<ConditionType, Condition>)

  // ----- Errors of a write -----

  datatype ErrorKind = Conflict | AlreadyExists | Transient | NotFound | NotOwned | UnknownField | Other

  datatype ApiError = ApiError(kind: ErrorKind, text: string)

  /** Where createOrUpdateResource failed. For a write, observed says that the read before it saw what
      allows the last-known status to be kept: the object (llm-d, vLLM), or the object owned, not
      terminating and serving (KubeRay, KAITO). */
  datatype Stage = Reading | CheckingOwner | Writing(observed: bool)

  datatype Attempt = Succeeded | Rejected(err: ApiError, stage: Stage)

  const PATCH_WRAPPER := "failed to create typed patch object"
  const LIVE_WRAPPER := "failed to create typed live object"
  const NOT_DECLARED := "field not declared in schema"
  const DETAIL_IN_LOGS := "the offending field and the exact reason are in the controller logs"

  predicate OccursAt(s: string, part: string, i: nat) {
    i + |part| <= |s| && s[i..i + |part|] == part
  }

  predicate Contains(s: string, part: string) {
    exists i | 0 <= i <= |s| :: OccursAt(s, part, i)
  }

  predicate TypedWrapper(text: string) {
    Contains(text, PATCH_WRAPPER) || Contains(text, LIVE_WRAPPER)
  }

  /** llm-d and vLLM render built-in types through server-side apply; the others write custom resources. */
  predicate BuiltInTypes(p: Provider) {
    p.Llmd? || p.Vllm?
  }

  predicate IsSchemaRejection(p: Provider, err: ApiError) {
    || (TypedWrapper(err.text) && Contains(err.text, NOT_DECLARED))
    || (!BuiltInTypes(p) && err.kind.UnknownField?)
  }

  predicate IsRetryable(p: Provider, err: ApiError) {
    && !(BuiltInTypes(p) && TypedWrapper(err.text))
    && (err.kind.Conflict? || err.kind.AlreadyExists? || err.kind.Transient?)
  }

  predicate CanPreserve(p: Provider, stage: Stage) {
    if BuiltInTypes(p) then stage.Writing? ==> stage.observed else stage.Writing? && stage.observed
  }

  /** statusSafeRejectionDetail: the text that may be stored in status. */
  function StatusDetail(p: Provider, err: ApiError): string {
    if BuiltInTypes(p) && TypedWrapper(err.text) then DETAIL_IN_LOGS else err.text
  }

  function SchemaMessage(p: Provider, detail: string): string {
    "Incompatible with the installed upstream. " + detail
  }

  function FailureMessage(p: Provider, name: string, detail: string): string {
    match p
    case KubeRay => "Failed to create RayService: " + detail
    case Kaito => "Failed to create Workspace: " + detail
    case _ => "Failed to create/update resource " + name + ": " + detail
  }

  function WaitingMessage(p: Provider): string {
    match p
    case KubeRay => "RayService created, waiting for pods to be ready"
    case Kaito => "Workspace created, waiting for pods to be ready"
    case _ => "Deployments created, waiting for pods to be ready"
  }

  function RunningMessage(p: Provider): string {
    match p
    case KubeRay => "RayService created, pods are ready"
    case Kaito => "Workspace created, pods are ready"
    case _ => "Deployments created, pods are ready"
  }

  // ----- Answers a pass can get -----

  datatype Seen = Unreadable | Seen(terminating: bool, owned: bool, isDeployment: bool, phase: Option<Phase>)

  datatype Sync = Gone | SyncFailed | Translated(phase: Phase, message: string, replicas: Option<int>, endpoint: Option<string>)

  /** What stops a pass before anything is rendered: the compatibility check, or for vLLM the resolution
      of the default image. */
  datatype EarlyFailure = Incompatible(message: string) | ImageUnresolved(message: string)

  /** What KAITO's probe reports about an upstream controller that is not healthy. */
  datatype Health = Unhealthy(reason: string, message: string)

  datatype Answers = Answers(
    early: Option<EarlyFailure>, unhealthy: Option<Health>, untransformable: Option<string>,
    names: seq<string>, snapshot: seq<Seen>, attempts: seq<Attempt>, sync: Sync,
    now: nat, generation: nat)

  predicate WellFormed(p: Provider, a: Answers) {
    && |a.snapshot| == |a.attempts| == |a.names|
    && (a.early.Some? && a.early.value.ImageUnresolved? ==> p.Vllm?)
  }

  datatype PassResult = Completed(status: Status) | FailedClosed(status: Status, requeue: nat) | Preserved(status: Status, requeue: nat)

  // ----- Specification -----

  /** SetStatusCondition of apimachinery: the transition time moves only when the status does. */
  function WithCondition(s: Status, t: ConditionType, v: Verdict, reason: string, message: string, a: Answers): Status {
    var since := if t in s.conditions && s.conditions[t].status == v then s.conditions[t].since else a.now;
    s.(conditions := s.conditions[t := Condition(v, reason, message, since, a.generation)])
  }

  function Closed(s: Status, message: string): Status {
    s.(endpoint := None, replicas := None, phase := Failed, message := message)
  }

  function AfterRejection(p: Provider, s: Status, name: string, attempt: Attempt, safe: bool, a: Answers): PassResult
    requires attempt.Rejected?
  {
    var err, detail := attempt.err, StatusDetail(p, attempt.err);
    if IsSchemaRejection(p, err) then
      var marked := WithCondition(WithCondition(s, Ready, IsFalse, "IncompatibleUpstream", detail, a),
                                  ResourceCreated, IsFalse, "IncompatibleUpstream", detail, a);
      FailedClosed(Closed(marked, SchemaMessage(p, detail)), 300)
    else if IsRetryable(p, err) && safe && CanPreserve(p, attempt.stage) then
      var reason := if err.kind.Conflict? || err.kind.AlreadyExists? then "ResourceConflict" else "CreateFailed";
      Preserved(WithCondition(s, ResourceCreated, IsFalse, reason, detail, a), if err.kind.Conflict? then 1 else 30)
    else
      var reason := if err.kind.NotOwned? then "ResourceConflict" else "CreateFailed";
      var requeue := if err.kind.Conflict? then 1 else if err.kind.NotFound? || IsRetryable(p, err) then 30 else 300;
      var marked := WithCondition(WithCondition(s, ResourceCreated, IsFalse, reason, detail, a),
                                  Ready, IsFalse, reason, detail, a);
      FailedClosed(Closed(marked, FailureMessage(p, name, detail)), requeue)
  }

  /** The write loop from resource i on. */
  function WritePass(p: Provider, s: Status, a: Answers, i: nat, safe: bool): PassResult
    requires WellFormed(p, a) && i <= |a.attempts|
    decreases |a.attempts| - i
  {
    if i == |a.attempts| then Completed(s)
    else if a.attempts[i].Rejected? then AfterRejection(p, s, a.names[i], a.attempts[i], safe, a)
    else WritePass(p, s, a, i + 1, if BuiltInTypes(p) then false else safe)
  }

  predicate OwnedActiveServing(seen: Seen) {
    && seen.Seen? && !seen.terminating && seen.owned
    && (seen.isDeployment ==> seen.phase == Some(Running))
  }

  /** allRequiredResourcesAreOwnedActiveAndServing. */
  predicate AllServing(snapshot: seq<Seen>) {
    && (forall j | 0 <= j < |snapshot| :: OwnedActiveServing(snapshot[j]))
    && (exists j | 0 <= j < |snapshot| :: snapshot[j].Seen? && snapshot[j].isDeployment)
  }

  function Synced(p: Provider, s: Status, a: Answers): Status {
    match a.sync
    case Translated(phase, message, replicas, endpoint) =>
      var text := if message != "" then message
                  else if phase.Running? then RunningMessage(p)
                  else if BuiltInTypes(p) then WaitingMessage(p)
                  else s.message;
      var synced := s.(phase := phase, message := text, replicas := replicas, endpoint := endpoint);
      if phase.Running? then WithCondition(synced, Ready, IsTrue, "DeploymentReady", "All replicas are ready", a)
      else if phase.Failed? then WithCondition(synced, Ready, IsFalse, "DeploymentFailed", message, a)
      else WithCondition(synced, Ready, IsFalse, "DeploymentInProgress", "Deployment is in progress", a)
    case _ => s
  }

  function Deployed(p: Provider, s: Status, a: Answers): Status {
    if s.phase.Running? || s.phase.Failed? || (p.Vllm? && a.sync.SyncFailed? && |a.names| > 0) then s
    else s.(phase := Deploying, message := if p.Vllm? && s.message != "" then s.message else WaitingMessage(p))
  }

  function AfterWrites(p: Provider, s: Status, a: Answers): Status {
    var created := WithCondition(s, ResourceCreated, IsTrue, "ResourceCreated", "created successfully", a);
    if |a.names| > 0 then Deployed(p, Synced(p, created.(resourceName := a.names[0]), a), a)
    else Deployed(p, created, a)
  }

  datatype Pass = Pass(status: Status, requeue: nat)

  /** The status a pass computes for a deployment that is not being deleted, and when it comes back. */
  function Reconciled(p: Provider, s: Status, a: Answers): Pass
    requires WellFormed(p, a)
  {
    if a.early.Some? && a.early.value.Incompatible? then
      Pass(WithCondition(s, ProviderCompatible, IsFalse, "IncompatibleConfiguration", a.early.value.message, a)
           .(phase := Failed, message := a.early.value.message), 0)
    else
      var compatible := WithCondition(s, ProviderCompatible, IsTrue, "CompatibilityVerified", "Configuration compatible", a);
      if a.early.Some? then
        Pass(compatible.(phase := Failed, message := a.early.value.message), 0)
      else if p.Kaito? && a.unhealthy.Some? then
        Pass(WithCondition(compatible, Ready, IsFalse, a.unhealthy.value.reason, a.unhealthy.value.message, a), 30)
      else if a.untransformable.Some? then
        var marked := WithCondition(WithCondition(compatible, ResourceCreated, IsFalse, "TransformFailed", a.untransformable.value, a),
                                    Ready, IsFalse, "TransformFailed", a.untransformable.value, a);
        Pass(Closed(marked, "Failed to generate resources: " + a.untransformable.value), 0)
      else
        match WritePass(p, compatible, a, 0, BuiltInTypes(p) ==> AllServing(a.snapshot))
        case Completed(written) => Pass(AfterWrites(p, written, a), 30)
        case FailedClosed(status, requeue) => Pass(status, requeue)
        case Preserved(status, requeue) => Pass(status, requeue)
  }

  // ----- The controller's code -----

  /** The ModelDeployment as the reconciler holds it; a pass rewrites its status step by step. */
  class ModelDeployment {
    var status: Status

    constructor (status: Status)
      ensures this.status == status
    {
      this.status := status;
    }

    method SetCondition(t: ConditionType, v: Verdict, reason: string, message: string, a: Answers)
      modifies this
      ensures status == WithCondition(old(status), t, v, reason, message, a)
    {
      var condition := Condition(v, reason, message, a.now, a.generation);
      if t in status.conditions && status.conditions[t].status == v {
        condition := condition.(since := status.conditions[t].since);
      }
      status := status.(conditions := status.conditions[t := condition]);
    }

    method WriteAll(p: Provider, a: Answers) returns (result: PassResult)
      requires WellFormed(p, a)
      modifies this
      ensures result == WritePass(p, old(status), a, 0, BuiltInTypes(p) ==> AllServing(a.snapshot))
      ensures status == result.status
    {
      var preserveSafe := true;
      if BuiltInTypes(p) {
        preserveSafe := SnapshotServing(a.snapshot);
      }
      var i := 0;
      while i < |a.attempts|
        invariant 0 <= i <= |a.attempts|
        invariant status == old(status)
        invariant WritePass(p, status, a, i, preserveSafe)
               == WritePass(p, old(status), a, 0, BuiltInTypes(p) ==> AllServing(a.snapshot))
      {
        if a.attempts[i].Rejected? {
          result := Stop(p, a.names[i], a.attempts[i], preserveSafe, a);
          return;
        }
        if BuiltInTypes(p) {
          preserveSafe := false;
        }
        i := i + 1;
      }
      result := Completed(status);
    }

    method Stop(p: Provider, name: string, attempt: Attempt, preserveSafe: bool, a: Answers) returns (result: PassResult)
      requires attempt.Rejected?
      modifies this
      ensures result == AfterRejection(p, old(status), name, attempt, preserveSafe, a)
      ensures status == result.status
    {
      var err := attempt.err;
      var detail := StatusDetail(p, err);
      if IsSchemaRejection(p, err) {
        SetCondition(Ready, IsFalse, "IncompatibleUpstream", detail, a);
        SetCondition(ResourceCreated, IsFalse, "IncompatibleUpstream", detail, a);
        status := status.(endpoint := None);
        status := status.(replicas := None);
        status := status.(phase := Failed);
        status := status.(message := SchemaMessage(p, detail));
        return FailedClosed(status, 300);
      }
      var retryable := IsRetryable(p, err);
      if retryable && preserveSafe && CanPreserve(p, attempt.stage) {
        var reason := "CreateFailed";
        if err.kind.Conflict? || err.kind.AlreadyExists? {
          reason := "ResourceConflict";
        }
        SetCondition(ResourceCreated, IsFalse, reason, detail, a);
        return Preserved(status, if err.kind.Conflict? then 1 else 30);
      }
      var reason, requeueAfter := "CreateFailed", 300;
      if err.kind.Conflict? {
        requeueAfter := 1;
      } else if err.kind.NotFound? || retryable {
        requeueAfter := 30;
      }
      if err.kind.NotOwned? {
        reason := "ResourceConflict";
      }
      SetCondition(ResourceCreated, IsFalse, reason, detail, a);
      SetCondition(Ready, IsFalse, reason, detail, a);
      status := status.(endpoint := None);
      status := status.(replicas := None);
      status := status.(phase := Failed);
      status := status.(message := FailureMessage(p, name, detail));
      return FailedClosed(status, requeueAfter);
    }

    method SyncStatus(p: Provider, a: Answers)
      modifies this
      ensures status == Synced(p, old(status), a)
    {
      if !a.sync.Translated? {
        return;
      }
      status := status.(phase := a.sync.phase);
      if a.sync.message != "" {
        status := status.(message := a.sync.message);
      } else if a.sync.phase.Running? {
        status := status.(message := RunningMessage(p));
      } else if BuiltInTypes(p) {
        status := status.(message := WaitingMessage(p));
      }
      status := status.(replicas := a.sync.replicas);
      status := status.(endpoint := a.sync.endpoint);
      if a.sync.phase.Running? {
        SetCondition(Ready, IsTrue, "DeploymentReady", "All replicas are ready", a);
      } else if a.sync.phase.Failed? {
        SetCondition(Ready, IsFalse, "DeploymentFailed", a.sync.message, a);
      } else {
        SetCondition(Ready, IsFalse, "DeploymentInProgress", "Deployment is in progress", a);
      }
    }

    method Reconcile(p: Provider, a: Answers) returns (requeue: nat)
      requires WellFormed(p, a)
      modifies this
      ensures Pass(status, requeue) == Reconciled(p, old(status), a)
    {
      if a.early.Some? && a.early.value.Incompatible? {
        SetCondition(ProviderCompatible, IsFalse, "IncompatibleConfiguration", a.early.value.message, a);
        status := status.(phase := Failed);
        status := status.(message := a.early.value.message);
        return 0;
      }
      SetCondition(ProviderCompatible, IsTrue, "CompatibilityVerified", "Configuration compatible", a);
      if a.early.Some? {
        status := status.(phase := Failed);
        status := status.(message := a.early.value.message);
        return 0;
      }
      if p.Kaito? && a.unhealthy.Some? {
        SetCondition(Ready, IsFalse, a.unhealthy.value.reason, a.unhealthy.value.message, a);
        return 30;
      }
      if a.untransformable.Some? {
        SetCondition(ResourceCreated, IsFalse, "TransformFailed", a.untransformable.value, a);
        SetCondition(Ready, IsFalse, "TransformFailed", a.untransformable.value, a);
        status := status.(endpoint := None, replicas := None);
        status := status.(phase := Failed);
        status := status.(message := "Failed to generate resources: " + a.untransformable.value);
        return 0;
      }
      var result := WriteAll(p, a);
      if !result.Completed? {
        return result.requeue;
      }
      SetCondition(ResourceCreated, IsTrue, "ResourceCreated", "created successfully", a);
      if |a.names| > 0 {
        status := status.(resourceName := a.names[0]);
        SyncStatus(p, a);
      }
      var statusSynced := !(p.Vllm? && a.sync.SyncFailed? && |a.names| > 0);
      if statusSynced && !status.phase.Running? && !status.phase.Failed? {
        status := status.(phase := Deploying);
        if !p.Vllm? || status.message == "" {
          status := status.(message := WaitingMessage(p));
        }
      }
      return 30;
    }
  }

  method SnapshotServing(snapshot: seq<Seen>) returns (serving: bool)
    ensures serving == AllServing(snapshot)
  {
    var foundDeployment := false;
    var i := 0;
    while i < |snapshot|
      invariant 0 <= i <= |snapshot|
      invariant forall j | 0 <= j < i :: OwnedActiveServing(snapshot[j])
      invariant foundDeployment <==> exists j | 0 <= j < i :: snapshot[j].Seen? && snapshot[j].isDeployment
    {
      var existing := snapshot[i];
      if existing.Unreadable? || existing.terminating || !existing.owned {
        return false;
      }
      if existing.isDeployment {
        foundDeployment := true;
        if existing.phase != Some(Running) {
          return false;
        }
      }
      i := i + 1;
    }
    return foundDeployment;
  }
}
