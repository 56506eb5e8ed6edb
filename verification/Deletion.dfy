/** The deletion path of each provider: when a pass deletes what, and when it gives up the finalizer. */
module Deletion {

  datatype Provider = Dynamo | KubeRay | Kaito | Llmd | Vllm

  /** The answer to a Get: NoCrd means the resource type is not installed, Broken any other failure. */
  datatype Lookup = Found(owned: bool) | Missing | NoCrd | Broken

  datatype DeleteAnswer = Accepted | AlreadyGone | TypeGone | Refused

  datatype Effect = DeletesUpstream | DeletesJobs | DeletesPvcs | AsksFinalizerRemoval

  datatype Next = Finished | RequeueAfter(seconds: nat) | Errored

  /** What one pass finds. elapsed is the time since the deletion request. */
  datatype Answers = Answers(lookup: Lookup, delete: DeleteAnswer, jobsDeleted: bool, pvcsDeleted: bool, elapsed: nat, removable: bool)

  datatype Outcome = Outcome(effects: seq<Effect>, next: Next)

  const FINALIZER_TIMEOUT: nat := 300

  predicate TimedOut(a: Answers) {
    a.elapsed > FINALIZER_TIMEOUT
  }

  function Removal(effects: seq<Effect>, a: Answers): Outcome {
    Outcome(effects + [AsksFinalizerRemoval], if a.removable then Finished else Errored)
  }

  function RemovalIfTimedOut(effects: seq<Effect>, a: Answers): Outcome {
    if TimedOut(a) then Removal(effects, a) else Outcome(effects, RequeueAfter(10))
  }

  /** handleDeletion of each provider, from the Get on. */
  function HandleDeletion(p: Provider, a: Answers): Outcome {
    match a.lookup
    case Found(false) => Removal([], a)
    case Found(true) =>
      if p.Vllm? && TimedOut(a) then Removal([], a)
      else
        (match a.delete
         case Accepted => Outcome([DeletesUpstream], RequeueAfter(5))
         case Refused => if p.Vllm? then Outcome([DeletesUpstream], RequeueAfter(10)) else RemovalIfTimedOut([DeletesUpstream], a)
         case AlreadyGone =>
           (match p
            case Dynamo => RemovalIfTimedOut([DeletesUpstream], a)
            case KubeRay => Outcome([DeletesUpstream], Errored)
            case Kaito => Removal([DeletesUpstream], a)
            case _ => Outcome([DeletesUpstream], RequeueAfter(5)))
         case TypeGone =>
           (match p
            case KubeRay => Outcome([DeletesUpstream], Errored)
            case Kaito => Removal([DeletesUpstream], a)
            case Vllm => Outcome([DeletesUpstream], RequeueAfter(10))
            case _ => RemovalIfTimedOut([DeletesUpstream], a)))
    case Broken => if p.Dynamo? || p.Kaito? then RemovalIfTimedOut([], a) else Outcome([], Errored)
    case NoCrd =>
      if p.Dynamo? then DynamoCleanup(a)
      else if p.KubeRay? || p.Kaito? then Removal([], a)
      else Outcome([], Errored)
    case Missing => if p.Dynamo? then DynamoCleanup(a) else Removal([], a)
  }

  function DynamoCleanup(a: Answers): Outcome {
    if a.jobsDeleted && a.pvcsDeleted then Removal([DeletesJobs, DeletesPvcs], a)
    else RemovalIfTimedOut([DeletesJobs, DeletesPvcs], a)
  }

  /** A ModelDeployment that is being deleted, and what its passes did. */
  class Terminating {
    var finalizer: bool
    ghost var effects: seq<Effect>

    constructor ()
      ensures finalizer && effects == []
    {
      finalizer, effects := true, [];
    }

    method RemoveFinalizer(a: Answers) returns (next: Next)
      modifies this
      ensures effects == old(effects) + [AsksFinalizerRemoval]
      ensures finalizer == (old(finalizer) && !a.removable)
      ensures next == if a.removable then Finished else Errored
    {
      effects := effects + [AsksFinalizerRemoval];
      if !a.removable {
        return Errored;
      }
      finalizer := false;
      return Finished;
    }

    /** Dynamo. The error of Delete is a variable of its own, so the error of Get is still nil after a
        Delete that found nothing, and nil is not "unavailable". */
    method HandleDynamo(a: Answers) returns (next: Next)
      requires finalizer
      modifies this
      ensures effects == old(effects) + HandleDeletion(Dynamo, a).effects && next == HandleDeletion(Dynamo, a).next
      ensures finalizer <==> !(AsksFinalizerRemoval in HandleDeletion(Dynamo, a).effects && a.removable)
    {
      if a.lookup.Found? {
        if !a.lookup.owned {
          next := RemoveFinalizer(a);
          return;
        }
        effects := effects + [DeletesUpstream];
        match a.delete {
          case Accepted => return RequeueAfter(5);
          case Refused =>
            if a.elapsed > FINALIZER_TIMEOUT {
              next := RemoveFinalizer(a);
              return;
            }
            return RequeueAfter(10);
          case _ =>
        }
      }
      if !a.lookup.Missing? && !a.lookup.NoCrd? {
        if a.elapsed > FINALIZER_TIMEOUT {
          next := RemoveFinalizer(a);
          return;
        }
        return RequeueAfter(10);
      }
      effects := effects + [DeletesJobs];
      effects := effects + [DeletesPvcs];
      if !a.jobsDeleted || !a.pvcsDeleted {
        if a.elapsed > FINALIZER_TIMEOUT {
          next := RemoveFinalizer(a);
          return;
        }
        return RequeueAfter(10);
      }
      next := RemoveFinalizer(a);
    }

    /** KubeRay shadows the error the same way, and reports the nil error of Get as a failure. */
    method HandleKubeRay(a: Answers) returns (next: Next)
      requires finalizer
      modifies this
      ensures effects == old(effects) + HandleDeletion(KubeRay, a).effects && next == HandleDeletion(KubeRay, a).next
      ensures finalizer <==> !(AsksFinalizerRemoval in HandleDeletion(KubeRay, a).effects && a.removable)
    {
      if a.lookup.Found? {
        if !a.lookup.owned {
          next := RemoveFinalizer(a);
          return;
        }
        effects := effects + [DeletesUpstream];
        match a.delete {
          case Accepted => return RequeueAfter(5);
          case Refused =>
            if a.elapsed > FINALIZER_TIMEOUT {
              next := RemoveFinalizer(a);
              return;
            }
            return RequeueAfter(10);
          case _ =>
        }
      }
      if !a.lookup.Missing? && !a.lookup.NoCrd? {
        return Errored;
      }
      next := RemoveFinalizer(a);
    }

    method HandleKaito(a: Answers) returns (next: Next)
      requires finalizer
      modifies this
      ensures effects == old(effects) + HandleDeletion(Kaito, a).effects && next == HandleDeletion(Kaito, a).next
      ensures finalizer <==> !(AsksFinalizerRemoval in HandleDeletion(Kaito, a).effects && a.removable)
    {
      if a.lookup.Found? {
        if !a.lookup.owned {
          next := RemoveFinalizer(a);
          return;
        }
        effects := effects + [DeletesUpstream];
        if a.delete.Accepted? {
          return RequeueAfter(5);
        }
        if a.delete.AlreadyGone? || a.delete.TypeGone? || a.elapsed > FINALIZER_TIMEOUT {
          next := RemoveFinalizer(a);
          return;
        }
        return RequeueAfter(10);
      }
      if a.lookup.Broken? && a.elapsed <= FINALIZER_TIMEOUT {
        return RequeueAfter(10);
      }
      next := RemoveFinalizer(a);
    }

    method HandleLlmd(a: Answers) returns (next: Next)
      requires finalizer
      modifies this
      ensures effects == old(effects) + HandleDeletion(Llmd, a).effects && next == HandleDeletion(Llmd, a).next
      ensures finalizer <==> !(AsksFinalizerRemoval in HandleDeletion(Llmd, a).effects && a.removable)
    {
      if a.lookup.Found? {
        if !a.lookup.owned {
          next := RemoveFinalizer(a);
          return;
        }
        effects := effects + [DeletesUpstream];
        if !a.delete.Accepted? && !a.delete.AlreadyGone? {
          if a.elapsed > FINALIZER_TIMEOUT {
            next := RemoveFinalizer(a);
            return;
          }
          return RequeueAfter(10);
        }
        return RequeueAfter(5);
      }
      if !a.lookup.Missing? {
        return Errored;
      }
      next := RemoveFinalizer(a);
    }

    /** vLLM checks the timeout before it deletes, so that a Delete that keeps succeeding cannot hold it up. */
    method HandleVllm(a: Answers) returns (next: Next)
      requires finalizer
      modifies this
      ensures effects == old(effects) + HandleDeletion(Vllm, a).effects && next == HandleDeletion(Vllm, a).next
      ensures finalizer <==> !(AsksFinalizerRemoval in HandleDeletion(Vllm, a).effects && a.removable)
    {
      if a.lookup.Found? {
        if !a.lookup.owned {
          next := RemoveFinalizer(a);
          return;
        }
        if a.elapsed > FINALIZER_TIMEOUT {
          next := RemoveFinalizer(a);
          return;
        }
        effects := effects + [DeletesUpstream];
        if !a.delete.Accepted? && !a.delete.AlreadyGone? {
          return RequeueAfter(10);
        }
        return RequeueAfter(5);
      }
      if !a.lookup.Missing? {
        return Errored;
      }
      next := RemoveFinalizer(a);
    }
  }

  // ----- When the finalizer goes -----

  predicate Asks(p: Provider, a: Answers) {
    AsksFinalizerRemoval in HandleDeletion(p, a).effects
  }

  predicate Stuck(a: Answers) {
    a.lookup == Found(true) && a.delete.Accepted?
  }

  /** Dynamo gives up the finalizer exactly when the object is someone else's, or it is gone and both
      cleanups succeeded in this very pass, or time is up; but time never runs out on an object that is
      still there and whose deletion is accepted. */
  lemma DynamoRemovalIsJustified(a: Answers)
    ensures Asks(Dynamo, a) <==>
              || a.lookup == Found(false)
              || ((a.lookup.Missing? || a.lookup.NoCrd?) && a.jobsDeleted && a.pvcsDeleted)
              || (TimedOut(a) && !Stuck(a))
  {
  }

  /** Jobs and PVCs go only in a pass that found the upstream object, or its whole type, gone. */
  lemma DynamoStorageOutlivesUpstream(a: Answers)
    ensures var effects := HandleDeletion(Dynamo, a).effects;
            && (DeletesJobs in effects <==> a.lookup.Missing? || a.lookup.NoCrd?)
            && (DeletesPvcs in effects <==> a.lookup.Missing? || a.lookup.NoCrd?)
            && !(DeletesUpstream in effects && DeletesPvcs in effects)
  {
  }

  /** vLLM asks exactly when the primary Deployment is gone, someone else's, or still there after the timeout. */
  lemma VllmRemovalIsJustified(a: Answers)
    ensures Asks(Vllm, a) <==> a.lookup.Missing? || a.lookup == Found(false) || (a.lookup == Found(true) && TimedOut(a))
  {
  }

  /** What entitles a pass to give up the finalizer at any time: the object is someone else's, or it is gone
      (for Dynamo with both cleanups done in this pass), or its type is, where the provider expects that; KAITO also
      accepts that it goes away between Get and Delete. */
  predicate Earned(p: Provider, a: Answers) {
    match a.lookup
    case Found(owned) => !owned || (p.Kaito? && (a.delete.AlreadyGone? || a.delete.TypeGone?))
    case Missing => p.Dynamo? ==> a.jobsDeleted && a.pvcsDeleted
    case NoCrd => if p.Dynamo? then a.jobsDeleted && a.pvcsDeleted else p.KubeRay? || p.Kaito?
    case Broken => false
  }

  /** Which answers the timeout can end the waiting on. */
  predicate Freed(p: Provider, a: Answers) {
    match p
    case Dynamo => !Stuck(a)
    case Kaito => !Stuck(a)
    case KubeRay => a.lookup == Found(true) && a.delete.Refused?
    case Llmd => a.lookup == Found(true) && (a.delete.Refused? || a.delete.TypeGone?)
    case Vllm => a.lookup == Found(true)
  }

  /** Every provider, at any time: exactly when a pass asks for the removal of the finalizer. */
  lemma RemovalExactly(p: Provider, a: Answers)
    ensures Asks(p, a) <==> Earned(p, a) || (TimedOut(a) && Freed(p, a))
  {
  }

  /** Once five minutes are over the finalizer does not simply go. Exactly these answers make a pass ask for its
      removal then. */
  lemma TimeoutFreesExactly(p: Provider, a: Answers)
    requires TimedOut(a)
    ensures Asks(p, a) <==>
              match p
              case Dynamo => !Stuck(a)
              case Kaito => !Stuck(a)
              case KubeRay => a.lookup.Missing? || a.lookup.NoCrd? || a.lookup == Found(false) || (a.lookup == Found(true) && a.delete.Refused?)
              case Llmd => a.lookup.Missing? || a.lookup == Found(false)
                           || (a.lookup == Found(true) && (a.delete.Refused? || a.delete.TypeGone?))
              case Vllm => a.lookup.Missing? || a.lookup.Found?
  {
    RemovalExactly(p, a);
  }

  /** An owned object, or its type, goes away between Get and Delete. Only KAITO's pass finishes there and then; Dynamo
      waits for the timeout, KubeRay reports a failure however late it is, llm-d and vLLM come back to look again. */
  lemma GoneDuringDelete(p: Provider, a: Answers)
    requires a.lookup == Found(true) && (a.delete.AlreadyGone? || a.delete.TypeGone?)
    ensures Asks(p, a) <==>
              match p
              case Kaito => true
              case KubeRay => false
              case Llmd => a.delete.TypeGone? && TimedOut(a)
              case _ => TimedOut(a)
    ensures var next := HandleDeletion(p, a).next;
            if Asks(p, a) then next == if a.removable then Finished else Errored
            else if p.KubeRay? then next == Errored
            else if p.Dynamo? then next == RequeueAfter(10)
            else next == RequeueAfter(if a.delete.AlreadyGone? then 5 else 10)
  {
    RemovalExactly(p, a);
  }

  function If(condition: bool, effects: seq<Effect>): seq<Effect> {
    if condition then effects else []
  }

  /** Every provider: what a pass does, in which order. It deletes the object exactly when it finds it owned (vLLM only
      until the timeout), cleans up Jobs and PVCs exactly when it is Dynamo's and finds nothing, and asks last. */
  lemma EffectsExactly(p: Provider, a: Answers)
    ensures HandleDeletion(p, a).effects
         == If(a.lookup == Found(true) && !(p.Vllm? && TimedOut(a)), [DeletesUpstream])
            + If(p.Dynamo? && (a.lookup.Missing? || a.lookup.NoCrd?), [DeletesJobs, DeletesPvcs])
            + If(Earned(p, a) || (TimedOut(a) && Freed(p, a)), [AsksFinalizerRemoval])
  {
  }

  /** Every provider: a pass is the last one exactly when its request to remove the finalizer is accepted; which of the
      others report an error, and when the rest come back. */
  lemma NextPassExactly(p: Provider, a: Answers)
    ensures HandleDeletion(p, a).next == Finished <==> Asks(p, a) && a.removable
    ensures HandleDeletion(p, a).next ==
              if Asks(p, a) then if a.removable then Finished else Errored
              else match a.lookup
                case Found(_) =>
                  if a.delete.Accepted? then RequeueAfter(5)
                  else if p.KubeRay? && !a.delete.Refused? then Errored
                  else if (p.Llmd? || p.Vllm?) && a.delete.AlreadyGone? then RequeueAfter(5)
                  else RequeueAfter(10)
                case _ => if p.Dynamo? || p.Kaito? then RequeueAfter(10) else Errored
  {
    RemovalExactly(p, a);
  }

  /** The timeout is five minutes: one second more frees what it can free, one second less does not. */
  lemma TimeoutIsFiveMinutes(p: Provider, a: Answers)
    requires a.lookup == Found(true) && a.delete.Refused?
    ensures Asks(p, a) <==> a.elapsed > 300
  {
  }

  // ----- Whole deletions -----

  /** The finalizer survives a pass unless the pass asks for its removal and the patch is accepted. */
  predicate KeepsFinalizer(p: Provider, run: seq<Answers>) {
    forall i | 0 <= i < |run| :: !(Asks(p, run[i]) && run[i].removable)
  }

  /** In every Dynamo deletion, some pass before the finalizer went saw one of the justifications. */
  lemma DynamoFinalizerNeverDropsUnjustified(run: seq<Answers>)
    requires !KeepsFinalizer(Dynamo, run)
    ensures exists i :: 0 <= i < |run| && run[i].removable &&
              (|| run[i].lookup == Found(false)
               || ((run[i].lookup.Missing? || run[i].lookup.NoCrd?) && run[i].jobsDeleted && run[i].pvcsDeleted)
               || (TimedOut(run[i]) && !Stuck(run[i])))
  {
    var i :| 0 <= i < |run| && Asks(Dynamo, run[i]) && run[i].removable;
    DynamoRemovalIsJustified(run[i]);
  }

  /** Every provider: which deletions keep the finalizer, however long they take. */
  lemma FinalizerStaysExactly(p: Provider, run: seq<Answers>)
    ensures KeepsFinalizer(p, run) <==>
              forall i | 0 <= i < |run| && run[i].removable :: !Earned(p, run[i]) && (TimedOut(run[i]) ==> !Freed(p, run[i]))
  {
    forall i | 0 <= i < |run|
      ensures Asks(p, run[i]) <==> Earned(p, run[i]) || (TimedOut(run[i]) && Freed(p, run[i]))
    {
      RemovalExactly(p, run[i]);
    }
  }

  /** A deletion whose object stays while its Deletes are accepted never ends, except at vLLM. */
  lemma CanTerminateForever(p: Provider, run: seq<Answers>)
    requires !p.Vllm? && forall a <- run :: Stuck(a)
    ensures KeepsFinalizer(p, run)
  {
    forall i | 0 <= i < |run|
      ensures !Asks(p, run[i])
    {
      assert run[i] in run;
      RemovalExactly(p, run[i]);
    }
  }

  /** Passes come back no earlier than they asked to, and time does not run backwards. */
  predicate Paced(p: Provider, run: seq<Answers>) {
    forall i | 0 <= i < |run| - 1 ::
      var next := HandleDeletion(p, run[i]).next;
      run[i + 1].elapsed >= run[i].elapsed + if next.RequeueAfter? then next.seconds else 0
  }

  /** The passes whose Get is answered. */
  function Answered(run: seq<Answers>): nat {
    if run == [] then 0
    else Answered(run[..|run| - 1]) + if run[|run| - 1].lookup.Missing? || run[|run| - 1].lookup.Found? then 1 else 0
  }

  lemma AnsweredStep(run: seq<Answers>, i: nat)
    requires i < |run|
    ensures Answered(run[..i + 1]) == Answered(run[..i]) + if run[i].lookup.Missing? || run[i].lookup.Found? then 1 else 0
  {
    assert run[..i + 1][..i] == run[..i];
  }

  lemma {:induction false} TimePassesUntilRemoval(run: seq<Answers>, i: nat)
    requires i < |run| && Paced(Vllm, run)
    requires forall j | 0 <= j < i :: !Asks(Vllm, run[j])
    ensures run[i].elapsed >= 5 * Answered(run[..i])
    decreases i
  {
    if i > 0 {
      TimePassesUntilRemoval(run, i - 1);
      AnsweredStep(run, i - 1);
      VllmRemovalIsJustified(run[i - 1]);
    }
  }

  /** The n-th answered pass. */
  lemma {:induction false} NthAnswered(run: seq<Answers>, n: nat) returns (i: nat)
    requires n < Answered(run)
    ensures i < |run| && Answered(run[..i]) == n && (run[i].lookup.Missing? || run[i].lookup.Found?)
    decreases |run|
  {
    var last := |run| - 1;
    assert run[..last + 1] == run;
    AnsweredStep(run, last);
    if n < Answered(run[..last]) {
      i := NthAnswered(run[..last], n);
      assert run[..last][..i] == run[..i];
    } else {
      i := last;
    }
  }

  /** vLLM: the time left until the timeout bounds the passes. Whatever Delete answers, and however many Gets fail in
      between, one of the first 62 passes whose Get is answered asks for the removal of the finalizer. */
  lemma VllmDeletionEnds(run: seq<Answers>)
    requires Paced(Vllm, run) && Answered(run) >= 62
    ensures exists i :: 0 <= i < |run| && Answered(run[..i]) < 62 && (run[i].lookup.Missing? || run[i].lookup.Found?) && Asks(Vllm, run[i])
  {
    var last := NthAnswered(run, 61);
    if j :| 0 <= j < last && Asks(Vllm, run[j]) {
      VllmRemovalIsJustified(run[j]);
      AnsweredGrows(run, j, last);
    } else {
      TimePassesUntilRemoval(run, last);
      VllmRemovalIsJustified(run[last]);
    }
  }

  lemma {:induction false} AnsweredGrows(run: seq<Answers>, i: nat, j: nat)
    requires i <= j <= |run|
    ensures Answered(run[..i]) <= Answered(run[..j])
    decreases j
  {
    if i < j {
      AnsweredGrows(run, i, j - 1);
      AnsweredStep(run, j - 1);
    }
  }
}
