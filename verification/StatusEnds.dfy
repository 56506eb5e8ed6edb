/** What each end of a reconcile pass leaves in the status, field by field and condition by condition. */
module StatusEnds {
  import opened JsonValues
  import opened Reconciling
  import opened StatusProtocol

  /** The condition is there with this status, reason and message. */
  predicate Says(s: Status, t: ConditionType, status: Verdict, reason: string, message: string) {
    t in s.conditions && s.conditions[t].status == status && s.conditions[t].reason == reason && s.conditions[t].message == message
  }

  predicate SameCondition(before: Status, after: Status, t: ConditionType) {
    (t in before.conditions <==> t in after.conditions) && (t in before.conditions ==> after.conditions[t] == before.conditions[t])
  }

  /** Setting a condition: it is there for this generation, its transition time moves exactly when its status does, and
      nothing else in the status changes. */
  lemma ConditionIsSet(s: Status, t: ConditionType, v: Verdict, reason: string, message: string, a: Answers)
    ensures var after := WithCondition(s, t, v, reason, message, a);
            && Says(after, t, v, reason, message) && after.conditions[t].generation == a.generation
            && (if t in s.conditions && s.conditions[t].status == v then after.conditions[t].since == s.conditions[t].since
                else after.conditions[t].since == a.now)
            && after.(conditions := s.conditions) == s
            && forall other | other != t :: SameCondition(s, after, other)
  {
  }

  /** A failing early check: Failed with its message; Ready, ResourceCreated, endpoint and replicas are left alone. */
  lemma AfterFailedCheck(p: Provider, s: Status, a: Answers)
    requires WellFormed(p, a) && a.early.Some?
    ensures var after, message := Reconciled(p, s, a).status, a.early.value.message;
            && after.phase == Failed && after.message == message
            && after.endpoint == s.endpoint && after.replicas == s.replicas && after.resourceName == s.resourceName
            && SameCondition(s, after, Ready) && SameCondition(s, after, ResourceCreated)
            && (if a.early.value.Incompatible? then Says(after, ProviderCompatible, IsFalse, "IncompatibleConfiguration", message)
                else Says(after, ProviderCompatible, IsTrue, "CompatibilityVerified", "Configuration compatible"))
  {
  }

  /** KAITO's upstream is unhealthy: Ready says so, and the rest of the serving state is left alone. */
  lemma AfterUnhealthyUpstream(s: Status, a: Answers)
    requires WellFormed(Kaito, a) && a.early.None? && a.unhealthy.Some?
    ensures var pass := Reconciled(Kaito, s, a);
            && pass.requeue == 30
            && Says(pass.status, ProviderCompatible, IsTrue, "CompatibilityVerified", "Configuration compatible")
            && Says(pass.status, Ready, IsFalse, a.unhealthy.value.reason, a.unhealthy.value.message)
            && pass.status.(conditions := s.conditions) == s && SameCondition(s, pass.status, ResourceCreated)
  {
  }

  /** Nothing could be rendered: the pass fails closed, and both conditions say why. */
  lemma AfterFailedRendering(p: Provider, s: Status, a: Answers)
    requires WellFormed(p, a) && a.early.None? && (p.Kaito? ==> a.unhealthy.None?) && a.untransformable.Some?
    ensures var pass := Reconciled(p, s, a);
            && pass.requeue == 0 && IsFailedClosed(pass.status)
            && Says(pass.status, ProviderCompatible, IsTrue, "CompatibilityVerified", "Configuration compatible")
            && Says(pass.status, Ready, IsFalse, "TransformFailed", a.untransformable.value)
            && Says(pass.status, ResourceCreated, IsFalse, "TransformFailed", a.untransformable.value)
            && pass.status.message == "Failed to generate resources: " + a.untransformable.value
            && pass.status.resourceName == s.resourceName
  {
  }

  /** Why a refused write is recorded: the schema, an ownership or version conflict, or just that it failed. A version
      conflict is called one only when the serving state is kept. */
  function RefusalReason(p: Provider, err: ApiError, kept: bool): string {
    if IsSchemaRejection(p, err) then "IncompatibleUpstream"
    else if (if kept then err.kind.Conflict? || err.kind.AlreadyExists? else err.kind.NotOwned?) then "ResourceConflict"
    else "CreateFailed"
  }

  /** A refused write: the first refusal decides, with its reason and the text that may be stored. The status either
      keeps the whole serving state, message included, or fails closed with the same reason in Ready. */
  lemma AfterRefusedWrite(p: Provider, s: Status, a: Answers)
    requires WellFormed(p, a) && a.early.None? && (p.Kaito? ==> a.unhealthy.None?) && a.untransformable.None?
    requires FirstRejection(a.attempts, 0).Some?
    ensures var k := FirstRejection(a.attempts, 0).value;
            var err, after := a.attempts[k].err, Reconciled(p, s, a).status;
            var kept := WritePass(p, Compatible(s, a), a, 0, BuiltInTypes(p) ==> AllServing(a.snapshot)).Preserved?;
            var reason, detail := RefusalReason(p, err, kept), StatusDetail(p, err);
            && Says(after, ResourceCreated, IsFalse, reason, detail)
            && after.resourceName == s.resourceName
            && Says(after, ProviderCompatible, IsTrue, "CompatibilityVerified", "Configuration compatible")
            && if kept then ServingStateKept(s, after) && after.message == s.message
               else IsFailedClosed(after) && Says(after, Ready, IsFalse, reason, detail)
                    && after.message == if IsSchemaRejection(p, err) then SchemaMessage(p, detail) else FailureMessage(p, a.names[k], detail)
  {
    var safe, k := BuiltInTypes(p) ==> AllServing(a.snapshot), FirstRejection(a.attempts, 0).value;
    PassStopsAtFirstRejection(p, Compatible(s, a), a, 0, safe);
    RefusalIsMarked(p, Compatible(s, a), a.names[k], a.attempts[k], safe && (BuiltInTypes(p) ==> k == 0), a);
  }

  lemma RefusalIsMarked(p: Provider, s: Status, name: string, attempt: Attempt, safe: bool, a: Answers)
    requires attempt.Rejected?
    ensures var result, detail := AfterRejection(p, s, name, attempt, safe, a), StatusDetail(p, attempt.err);
            var reason := RefusalReason(p, attempt.err, result.Preserved?);
            && Says(result.status, ResourceCreated, IsFalse, reason, detail)
            && result.status.resourceName == s.resourceName && SameCondition(s, result.status, ProviderCompatible)
            && if result.Preserved? then ServingStateKept(s, result.status) && result.status.message == s.message
               else IsFailedClosed(result.status) && Says(result.status, Ready, IsFalse, reason, detail)
                    && result.status.message == if IsSchemaRejection(p, attempt.err) then SchemaMessage(p, detail) else FailureMessage(p, name, detail)
  {
  }

  /** What the status takes over from a translated upstream status, before phases in between become Deploying. */
  lemma SyncedExactly(p: Provider, s: Status, a: Answers)
    requires a.sync.Translated?
    ensures var t, after := a.sync, Synced(p, s, a);
            && after.phase == t.phase && after.replicas == t.replicas && after.endpoint == t.endpoint && after.resourceName == s.resourceName
            && SameCondition(s, after, ResourceCreated) && SameCondition(s, after, ProviderCompatible)
            && (t.message != "" ==> after.message == t.message)
            && (t.message == "" && t.phase.Running? ==> after.message == RunningMessage(p))
            && (t.message == "" && !t.phase.Running? && BuiltInTypes(p) ==> after.message == WaitingMessage(p))
            && if t.phase.Running? then Says(after, Ready, IsTrue, "DeploymentReady", "All replicas are ready")
               else if t.phase.Failed? then Says(after, Ready, IsFalse, "DeploymentFailed", t.message)
               else Says(after, Ready, IsFalse, "DeploymentInProgress", "Deployment is in progress")
  {
  }

  lemma CompletedPass(p: Provider, s: Status, a: Answers)
    requires WellFormed(p, a) && a.early.None? && (p.Kaito? ==> a.unhealthy.None?) && a.untransformable.None?
    requires FirstRejection(a.attempts, 0).None?
    ensures Reconciled(p, s, a) == Pass(AfterWrites(p, Compatible(s, a), a), 30)
  {
    NoRejectionCompletes(p, Compatible(s, a), a, 0, BuiltInTypes(p) ==> AllServing(a.snapshot));
  }

  function Created(s: Status, a: Answers): Status
    requires |a.names| > 0
  {
    WithCondition(Compatible(s, a), ResourceCreated, IsTrue, "ResourceCreated", "created successfully", a).(resourceName := a.names[0])
  }

  lemma CreatedExactly(s: Status, a: Answers)
    requires |a.names| > 0
    ensures var created := Created(s, a);
            && Says(created, ResourceCreated, IsTrue, "ResourceCreated", "created successfully")
            && Says(created, ProviderCompatible, IsTrue, "CompatibilityVerified", "Configuration compatible")
            && created.resourceName == a.names[0] && SameCondition(s, created, Ready)
            && created.(conditions := s.conditions, resourceName := s.resourceName) == s
  {
  }

  /** Every write was accepted and the upstream status was translated: replicas and endpoint are what it says, Ready is
      true exactly for Running, Running and Failed are taken over and anything else is Deploying. */
  lemma AfterTranslatedStatus(p: Provider, s: Status, a: Answers)
    requires WellFormed(p, a) && a.early.None? && (p.Kaito? ==> a.unhealthy.None?) && a.untransformable.None?
    requires FirstRejection(a.attempts, 0).None? && |a.names| > 0 && a.sync.Translated?
    ensures var t, pass := a.sync, Reconciled(p, s, a);
            var after, settled := pass.status, t.phase.Running? || t.phase.Failed?;
            && pass.requeue == 30 && after.resourceName == a.names[0]
            && Says(after, ResourceCreated, IsTrue, "ResourceCreated", "created successfully")
            && Says(after, ProviderCompatible, IsTrue, "CompatibilityVerified", "Configuration compatible")
            && after.replicas == t.replicas && after.endpoint == t.endpoint
            && after.phase == (if settled then t.phase else Deploying)
            && (if t.phase.Running? then Says(after, Ready, IsTrue, "DeploymentReady", "All replicas are ready")
                else if t.phase.Failed? then Says(after, Ready, IsFalse, "DeploymentFailed", t.message)
                else Says(after, Ready, IsFalse, "DeploymentInProgress", "Deployment is in progress"))
            && (t.message != "" && (settled || p.Vllm?) ==> after.message == t.message)
            && (t.message == "" && t.phase.Running? ==> after.message == RunningMessage(p))
            && (!settled && (!p.Vllm? || t.message == "") ==> after.message == WaitingMessage(p))
  {
    CompletedPass(p, s, a);
    CreatedExactly(s, a);
    SyncedExactly(p, Created(s, a), a);
  }

  /** Every write was accepted but there is no upstream status: endpoint, replicas and Ready stay as they were, and so do
      Running and Failed; at vLLM every phase stays when reading the upstream status failed. */
  lemma AfterMissingStatus(p: Provider, s: Status, a: Answers)
    requires WellFormed(p, a) && a.early.None? && (p.Kaito? ==> a.unhealthy.None?) && a.untransformable.None?
    requires FirstRejection(a.attempts, 0).None? && (a.names == [] || !a.sync.Translated?)
    ensures var pass := Reconciled(p, s, a);
            var after := pass.status;
            && pass.requeue == 30 && after.resourceName == (if a.names == [] then s.resourceName else a.names[0])
            && Says(after, ResourceCreated, IsTrue, "ResourceCreated", "created successfully")
            && Says(after, ProviderCompatible, IsTrue, "CompatibilityVerified", "Configuration compatible")
            && after.replicas == s.replicas && after.endpoint == s.endpoint && SameCondition(s, after, Ready)
            && if s.phase.Running? || s.phase.Failed? || (p.Vllm? && a.sync.SyncFailed? && a.names != []) then
                 after.phase == s.phase && after.message == s.message
               else
                 after.phase == Deploying && after.message == if p.Vllm? && s.message != "" then s.message else WaitingMessage(p)
  {
    CompletedPass(p, s, a);
    if a.names != [] {
      CreatedExactly(s, a);
    }
  }

  // ----- The classes of errors -----

  lemma ContainsMiddle(before: string, part: string, after: string)
    ensures Contains(before + part + after, part)
  {
    assert OccursAt(before + part + after, part, |before|);
  }

  /** llm-d and vLLM: whatever field and reason a typed-patch error spells out, the stored text is one and the same, and
      the write is not retried as transient; naming an undeclared field makes it a schema rejection. */
  lemma TypedErrorsStoreOneText(p: Provider, kind: ErrorKind, before: string, after: string)
    requires BuiltInTypes(p)
    ensures forall wrapper | wrapper in ["failed to create typed patch object", "failed to create typed live object"] ::
              var err := ApiError(kind, before + wrapper + after);
              && StatusDetail(p, err) == "the offending field and the exact reason are in the controller logs"
              && !IsRetryable(p, err)
              && (IsSchemaRejection(p, err) <==> Contains(err.text, "field not declared in schema"))
  {
    ContainsMiddle(before, "failed to create typed patch object", after);
    ContainsMiddle(before, "failed to create typed live object", after);
  }

  /** Any other error: only an undeclared field in a custom resource is a schema rejection, the text is stored as it is,
      and the kind alone sets the pace. */
  lemma OtherErrorsByKind(p: Provider, err: ApiError)
    requires !Contains(err.text, "failed to create typed patch object") && !Contains(err.text, "failed to create typed live object")
    ensures StatusDetail(p, err) == err.text
    ensures IsSchemaRejection(p, err) <==> err.kind == UnknownField && p in {KubeRay, Kaito}
    ensures IsRetryable(p, err) <==> err.kind in {Conflict, AlreadyExists, Transient}
    ensures RetryPace(p, err) == if err.kind == Conflict then 1 else if err.kind in {AlreadyExists, Transient, NotFound} then 30 else 300
  {
  }
}
