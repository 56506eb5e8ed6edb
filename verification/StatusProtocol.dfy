/** What the reconcile passes guarantee about the stored status: the three ways a write pass can end, when
    Ready can be trusted, and when a failing pass stops rewriting status. */
module StatusProtocol {
  import opened JsonValues
  import opened Reconciling

  // ----- How a write pass ends -----

  predicate IsFailedClosed(s: Status) {
    && s.phase == Failed && s.endpoint == None && s.replicas == None
    && Ready in s.conditions && s.conditions[Ready].status == IsFalse
  }

  /** Phase, Ready, Endpoint and Replicas are what they were. */
  predicate ServingStateKept(before: Status, after: Status) {
    && after.phase == before.phase && after.endpoint == before.endpoint && after.replicas == before.replicas
    && (Ready in after.conditions <==> Ready in before.conditions)
    && (Ready in after.conditions ==> after.conditions[Ready] == before.conditions[Ready])
  }

  predicate AllSucceed(attempts: seq<Attempt>, start: nat) {
    forall i | start <= i < |attempts| :: attempts[i].Succeeded?
  }

  /** Nothing was written in this pass, the error says nothing about the workload, the refused write was
      not a create, and every resource was seen owned, not terminating and, if a Deployment, Running. */
  predicate MayPreserve(a: Answers) {
    && |a.attempts| > 0 && a.attempts[0].Rejected?
    && a.attempts[0].err.kind in {Conflict, AlreadyExists, Transient} && !TypedWrapper(a.attempts[0].err.text)
    && (a.attempts[0].stage.Writing? ==> a.attempts[0].stage.observed)
    && (forall seen <- a.snapshot :: seen.Seen? && seen.owned && !seen.terminating && (seen.isDeployment ==> seen.phase == Some(Running)))
    && (exists seen <- a.snapshot :: seen.Seen? && seen.isDeployment)
  }

  lemma {:induction false} NeverPreservesOnceUnsafe(p: Provider, s: Status, a: Answers, i: nat)
    requires BuiltInTypes(p) && WellFormed(p, a) && i <= |a.attempts|
    ensures var result := WritePass(p, s, a, i, false);
            && !result.Preserved?
            && (result.Completed? <==> AllSucceed(a.attempts, i))
            && (result.Completed? ==> result.status == s)
            && (result.FailedClosed? ==> IsFailedClosed(result.status))
    decreases |a.attempts| - i
  {
    if i < |a.attempts| && a.attempts[i].Succeeded? {
      NeverPreservesOnceUnsafe(p, s, a, i + 1);
    }
  }

  lemma ServingExactly(snapshot: seq<Seen>)
    ensures AllServing(snapshot) <==>
              && (forall seen <- snapshot :: seen.Seen? && seen.owned && !seen.terminating && (seen.isDeployment ==> seen.phase == Some(Running)))
              && (exists seen <- snapshot :: seen.Seen? && seen.isDeployment)
  {
    if AllServing(snapshot) {
      var j :| 0 <= j < |snapshot| && snapshot[j].Seen? && snapshot[j].isDeployment;
      assert snapshot[j] in snapshot;
    } else if (forall seen <- snapshot :: seen.Seen? && seen.owned && !seen.terminating && (seen.isDeployment ==> seen.phase == Some(Running))) {
      assert forall j | 0 <= j < |snapshot| :: snapshot[j] in snapshot;
    }
  }

  /** llm-d and vLLM: for any resources and any answers, a write pass completes, or stops fail-closed, or
      stops with the serving state untouched; the last exactly when keeping it is justified. */
  lemma WritePassEndsInOneOfThreeWays(p: Provider, s: Status, a: Answers)
    requires BuiltInTypes(p) && WellFormed(p, a)
    ensures var result := WritePass(p, s, a, 0, AllServing(a.snapshot));
            && (result.Completed? <==> AllSucceed(a.attempts, 0))
            && (result.Completed? ==> result.status == s)
            && (result.FailedClosed? ==> IsFailedClosed(result.status))
            && (result.Preserved? ==> ServingStateKept(s, result.status))
            && (result.Preserved? <==> MayPreserve(a))
  {
    if a.attempts != [] && a.attempts[0].Succeeded? {
      NeverPreservesOnceUnsafe(p, s, a, 1);
    }
    ServingExactly(a.snapshot);
  }

  /** KubeRay and KAITO, which write one resource: the same three ends, kept exactly when the object was
      seen owned, not terminating and serving and the error is transient. */
  lemma SingleWriteEndsInOneOfThreeWays(p: Provider, s: Status, a: Answers)
    requires !BuiltInTypes(p) && WellFormed(p, a) && |a.attempts| == 1
    ensures var result := WritePass(p, s, a, 0, true);
            && (result.Completed? <==> a.attempts[0].Succeeded?)
            && (result.Completed? ==> result.status == s)
            && (result.FailedClosed? ==> IsFailedClosed(result.status))
            && (result.Preserved? ==> ServingStateKept(s, result.status))
            && (result.Preserved? <==> && a.attempts[0].Rejected? && a.attempts[0].stage == Writing(true)
                                       && a.attempts[0].err.kind in {Conflict, AlreadyExists, Transient}
                                       && !IsSchemaRejection(p, a.attempts[0].err))
  {
    assert WritePass(p, s, a, 1, true) == Completed(s);
  }

  // ----- Ready can be trusted -----

  /** A ModelDeployment as stored; deletion is irrevocable. */
  datatype Stored = Stored(status: Status, deleting: bool)

  /** A pass of the controller, whose status update the API server may refuse, or a deletion request. */
  datatype Event = PassRuns(answers: Answers, storable: bool) | DeletionRequested

  function Next(p: Provider, d: Stored, e: Event): Stored
    requires e.PassRuns? ==> WellFormed(p, e.answers)
  {
    match e
    case DeletionRequested => d.(deleting := true)
    case PassRuns(answers, storable) =>
      if !storable then d
      else if d.deleting then d.(status := d.status.(phase := Terminating))
      else d.(status := Reconciled(p, d.status, answers).status)
  }

  predicate SaysReady(s: Status) {
    Ready in s.conditions && s.conditions[Ready].status == IsTrue
  }

  predicate Trustworthy(d: Stored) {
    && (SaysReady(d.status) ==> d.status.phase == Running || d.status.phase == Terminating)
    && (d.status.phase == Terminating ==> d.deleting)
  }

  /** The one transition that lets Ready lie: the compatibility check (or vLLM's image resolution) fails,
      sets Failed, and leaves a true Ready where it is. */
  predicate LeavesReadyStale(d: Stored, e: Event) {
    e.PassRuns? && e.storable && !d.deleting && e.answers.early.Some? && SaysReady(d.status)
  }

  lemma WrittenStatusIsTrustworthy(p: Provider, s: Status, a: Answers, i: nat, safe: bool)
    requires WellFormed(p, a) && i <= |a.attempts|
    requires Trustworthy(Stored(s, false))
    ensures Trustworthy(Stored(WritePass(p, s, a, i, safe).status, false))
    ensures WritePass(p, s, a, i, safe).Completed? ==> WritePass(p, s, a, i, safe).status == s
    decreases |a.attempts| - i
  {
    if i < |a.attempts| && a.attempts[i].Succeeded? {
      WrittenStatusIsTrustworthy(p, s, a, i + 1, if BuiltInTypes(p) then false else safe);
    }
  }

  lemma SyncSetsReadyByPhase(p: Provider, s: Status, a: Answers)
    ensures var synced := Synced(p, s, a);
            if a.sync.Translated? then SaysReady(synced) <==> synced.phase == Running else synced == s
  {
  }

  lemma DeployedStatusIsTrustworthy(p: Provider, s: Status, a: Answers)
    requires SaysReady(s) ==> s.phase == Running
    requires s.phase == Terminating ==> a.sync.Translated?
    ensures Trustworthy(Stored(Deployed(p, s, a), false))
  {
  }

  lemma SyncedStatusIsTrustworthy(p: Provider, s: Status, a: Answers)
    requires Trustworthy(Stored(s, false))
    ensures Trustworthy(Stored(AfterWrites(p, s, a), false))
  {
    var created := WithCondition(s, ResourceCreated, IsTrue, "ResourceCreated", "created successfully", a);
    assert created.conditions[ResourceCreated].status == IsTrue && (SaysReady(created) <==> SaysReady(s));
    if |a.names| > 0 {
      var tracked := created.(resourceName := a.names[0]);
      SyncSetsReadyByPhase(p, tracked, a);
      DeployedStatusIsTrustworthy(p, Synced(p, tracked, a), a);
    } else {
      DeployedStatusIsTrustworthy(p, created, a);
    }
  }

  lemma ReconciledStatusIsTrustworthy(p: Provider, s: Status, a: Answers)
    requires WellFormed(p, a) && Trustworthy(Stored(s, false))
    ensures Trustworthy(Stored(Reconciled(p, s, a).status, false)) <==> !(a.early.Some? && SaysReady(s))
  {
    var compatible := Compatible(s, a);
    assert SaysReady(compatible) <==> SaysReady(s);
    if a.early.None? && a.untransformable.None? && !(p.Kaito? && a.unhealthy.Some?) {
      WrittenStatusIsTrustworthy(p, compatible, a, 0, BuiltInTypes(p) ==> AllServing(a.snapshot));
      SyncedStatusIsTrustworthy(p, compatible, a);
    }
  }

  /** Exactly which transitions keep "Ready implies Running or Terminating". */
  lemma ReadyStaysTrustworthyExactly(p: Provider, d: Stored, e: Event)
    requires Trustworthy(d)
    requires e.PassRuns? ==> WellFormed(p, e.answers)
    ensures Trustworthy(Next(p, d, e)) <==> !LeavesReadyStale(d, e)
  {
    if e.PassRuns? && e.storable && !d.deleting {
      ReconciledStatusIsTrustworthy(p, d.status, e.answers);
    }
  }

  function StateAfter(p: Provider, start: Stored, events: seq<Event>): Stored
    requires forall e <- events :: e.PassRuns? ==> WellFormed(p, e.answers)
  {
    if events == [] then start else Next(p, StateAfter(p, start, events[..|events| - 1]), events[|events| - 1])
  }

  /** Over every run in which the early checks pass, whatever rendering, probing, writing, syncing or
      storing does, Ready is true only while the phase is Running or Terminating. */
  lemma {:induction false} ReadyIsTrustworthyAlways(p: Provider, start: Stored, events: seq<Event>)
    requires Trustworthy(start)
    requires forall e <- events :: e.PassRuns? ==> WellFormed(p, e.answers) && e.answers.early.None?
    ensures Trustworthy(StateAfter(p, start, events))
    decreases |events|
  {
    if events != [] {
      var prefix := events[..|events| - 1];
      assert forall e <- prefix :: e in events;
      assert events[|events| - 1] in events;
      ReadyIsTrustworthyAlways(p, start, prefix);
      ReadyStaysTrustworthyExactly(p, StateAfter(p, start, prefix), events[|events| - 1]);
    }
  }

  /** A deployment that became ready and is then edited into an incompatible one reports Failed and Ready. */
  lemma IncompatibleEditLeavesReadyStale()
    ensures var s0 := Status(Unset, "", None, None, "", map[]);
            var healthy := Answers(None, None, None, ["ray"], [Unreadable], [Succeeded], Translated(Running, "", Some(1), Some("svc")), 1, 1);
            var edited := healthy.(early := Some(Incompatible("KubeRay requires GPU")), now := 2, generation := 2);
            var s1 := Reconciled(KubeRay, s0, healthy).status;
            var s2 := Reconciled(KubeRay, s1, edited).status;
            s1.phase == Running && SaysReady(s1) && s2.phase == Failed && SaysReady(s2) && s2.endpoint == Some("svc")
  {
    var s0 := Status(Unset, "", None, None, "", map[]);
    var healthy := Answers(None, None, None, ["ray"], [Unreadable], [Succeeded], Translated(Running, "", Some(1), Some("svc")), 1, 1);
    var compatible := Compatible(s0, healthy);
    assert WritePass(KubeRay, compatible, healthy, 1, true) == Completed(compatible);
    assert WritePass(KubeRay, compatible, healthy, 0, true) == Completed(compatible);
  }

  // ----- A failing pass stops rewriting status -----

  /** The first rejected write from resource i on, if any. */
  function FirstRejection(attempts: seq<Attempt>, i: nat): (first: Option<nat>)
    requires i <= |attempts|
    ensures first.Some? ==> i <= first.value < |attempts| && attempts[first.value].Rejected?
    decreases |attempts| - i
  {
    if i == |attempts| then None
    else if attempts[i].Rejected? then Some(i)
    else FirstRejection(attempts, i + 1)
  }

  /** The pass reaches its writes and the first refusal is for an undeclared field. */
  predicate SchemaRejected(p: Provider, a: Answers)
    requires WellFormed(p, a)
  {
    && a.early.None? && (p.Kaito? ==> a.unhealthy.None?) && a.untransformable.None?
    && FirstRejection(a.attempts, 0).Some?
    && IsSchemaRejection(p, a.attempts[FirstRejection(a.attempts, 0).value].err)
  }

  function RejectionError(p: Provider, a: Answers): ApiError
    requires WellFormed(p, a) && SchemaRejected(p, a)
  {
    a.attempts[FirstRejection(a.attempts, 0).value].err
  }

  /** The status a schema rejection leaves. */
  function RejectedStatus(p: Provider, s: Status, err: ApiError, a: Answers): Status {
    var detail := StatusDetail(p, err);
    Closed(WithCondition(WithCondition(s, Ready, IsFalse, "IncompatibleUpstream", detail, a),
                         ResourceCreated, IsFalse, "IncompatibleUpstream", detail, a),
           SchemaMessage(p, detail))
  }

  /** The first refused write decides the whole pass; anything written before it only takes away the right
      to keep the serving state. */
  lemma {:induction false} PassStopsAtFirstRejection(p: Provider, s: Status, a: Answers, i: nat, safe: bool)
    requires WellFormed(p, a) && i <= |a.attempts|
    requires FirstRejection(a.attempts, i).Some?
    ensures var k := FirstRejection(a.attempts, i).value;
            WritePass(p, s, a, i, safe) == AfterRejection(p, s, a.names[k], a.attempts[k], safe && (BuiltInTypes(p) ==> k == i), a)
    decreases |a.attempts| - i
  {
    if a.attempts[i].Succeeded? {
      PassStopsAtFirstRejection(p, s, a, i + 1, if BuiltInTypes(p) then false else safe);
    }
  }

  function Compatible(s: Status, a: Answers): Status {
    WithCondition(s, ProviderCompatible, IsTrue, "CompatibilityVerified", "Configuration compatible", a)
  }

  lemma SchemaRejectionDecidesStatus(p: Provider, s: Status, a: Answers)
    requires WellFormed(p, a) && SchemaRejected(p, a)
    ensures Reconciled(p, s, a) == Pass(RejectedStatus(p, Compatible(s, a), RejectionError(p, a), a), 300)
  {
    PassStopsAtFirstRejection(p, Compatible(s, a), a, 0, BuiltInTypes(p) ==> AllServing(a.snapshot));
  }

  /** When a pass that stops on this error comes back. */
  function RetryPace(p: Provider, err: ApiError): nat {
    if IsSchemaRejection(p, err) then 300
    else if err.kind.Conflict? then 1
    else if err.kind.NotFound? || IsRetryable(p, err) then 30
    else 300
  }

  lemma RejectionIsRecorded(p: Provider, s: Status, name: string, attempt: Attempt, safe: bool, a: Answers)
    requires attempt.Rejected?
    ensures var result := AfterRejection(p, s, name, attempt, safe, a);
            && !result.Completed? && result.requeue == RetryPace(p, attempt.err)
            && ResourceCreated in result.status.conditions
            && result.status.conditions[ResourceCreated].status == IsFalse
            && result.status.conditions[ResourceCreated].message == StatusDetail(p, attempt.err)
  {
  }

  /** Whatever becomes of the serving state, the first refusal is recorded in ResourceCreated, and when the
      pass comes back depends on that error alone. */
  lemma RefusalIsRecordedAndRetried(p: Provider, s: Status, a: Answers)
    requires WellFormed(p, a) && a.early.None? && (p.Kaito? ==> a.unhealthy.None?) && a.untransformable.None?
    requires FirstRejection(a.attempts, 0).Some?
    ensures var err := a.attempts[FirstRejection(a.attempts, 0).value].err;
            var pass := Reconciled(p, s, a);
            && ResourceCreated in pass.status.conditions
            && pass.status.conditions[ResourceCreated].status == IsFalse
            && pass.status.conditions[ResourceCreated].message == StatusDetail(p, err)
            && pass.requeue == RetryPace(p, err)
  {
    var safe, k := BuiltInTypes(p) ==> AllServing(a.snapshot), FirstRejection(a.attempts, 0).value;
    PassStopsAtFirstRejection(p, Compatible(s, a), a, 0, safe);
    RejectionIsRecorded(p, Compatible(s, a), a.names[k], a.attempts[k], safe && (BuiltInTypes(p) ==> k == 0), a);
  }

  lemma {:induction false} NoRejectionCompletes(p: Provider, s: Status, a: Answers, i: nat, safe: bool)
    requires WellFormed(p, a) && i <= |a.attempts| && FirstRejection(a.attempts, i).None?
    ensures WritePass(p, s, a, i, safe) == Completed(s)
    decreases |a.attempts| - i
  {
    if i < |a.attempts| {
      NoRejectionCompletes(p, s, a, i + 1, if BuiltInTypes(p) then false else safe);
    }
  }

  /** A pass asks for no later pass exactly when an early check failed or nothing could be rendered. (After a
      failed image resolution vLLM returns an error instead, which the work queue retries.) */
  lemma PassComesBackExactly(p: Provider, s: Status, a: Answers)
    requires WellFormed(p, a)
    ensures Reconciled(p, s, a).requeue == 0
       <==> a.early.Some? || (a.untransformable.Some? && !(p.Kaito? && a.unhealthy.Some?))
  {
    var safe := BuiltInTypes(p) ==> AllServing(a.snapshot);
    if FirstRejection(a.attempts, 0).Some? {
      PassStopsAtFirstRejection(p, Compatible(s, a), a, 0, safe);
    } else {
      NoRejectionCompletes(p, Compatible(s, a), a, 0, safe);
    }
  }

  /** With a fixed spec, a second refusal leaves the stored status as the first one left it exactly when
      both errors have the same stored detail. */
  lemma RepeatedRejectionRewritesExactly(p: Provider, s: Status, a1: Answers, a2: Answers)
    requires WellFormed(p, a1) && WellFormed(p, a2) && SchemaRejected(p, a1) && SchemaRejected(p, a2)
    requires a1.generation == a2.generation
    ensures var first := Reconciled(p, s, a1).status;
            Reconciled(p, first, a2).status == first
            <==> StatusDetail(p, RejectionError(p, a1)) == StatusDetail(p, RejectionError(p, a2))
  {
    var e1, e2 := RejectionError(p, a1), RejectionError(p, a2);
    SchemaRejectionDecidesStatus(p, s, a1);
    var first := RejectedStatus(p, Compatible(s, a1), e1, a1);
    SchemaRejectionDecidesStatus(p, first, a2);
    var second := RejectedStatus(p, Compatible(first, a2), e2, a2);
    assert first.conditions[Ready].message == StatusDetail(p, e1) && second.conditions[Ready].message == StatusDetail(p, e2);
    if StatusDetail(p, e1) == StatusDetail(p, e2) {
      assert second.conditions == first.conditions;
    }
  }

  function StatusAfter(p: Provider, s: Status, answers: seq<Answers>): Status
    requires forall a <- answers :: WellFormed(p, a)
  {
    if answers == [] then s
    else Reconciled(p, StatusAfter(p, s, answers[..|answers| - 1]), answers[|answers| - 1]).status
  }

  /** llm-d: however the API server varies the field it names, and whichever resource it refuses, a run of refusals
      stores one status and never rewrites it, so it never re-enqueues itself. Of vLLM the same holds for the part of
      the status modelled here, which leaves out its image status and image conditions. */
  lemma {:induction false} RefusalsSettleAtOnce(p: Provider, s: Status, answers: seq<Answers>)
    requires BuiltInTypes(p) && answers != []
    requires forall a <- answers :: WellFormed(p, a) && SchemaRejected(p, a) && a.generation == answers[0].generation
    ensures StatusAfter(p, s, answers) == Reconciled(p, s, answers[0]).status
    decreases |answers|
  {
    var prefix, last := answers[..|answers| - 1], answers[|answers| - 1];
    if prefix == [] {
      assert StatusAfter(p, s, prefix) == s;
    } else {
      assert forall a <- prefix :: a in answers;
      RefusalsSettleAtOnce(p, s, prefix);
      RepeatedRejectionRewritesExactly(p, s, answers[0], last);
    }
  }
}
