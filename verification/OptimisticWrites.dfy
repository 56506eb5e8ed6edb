/** createOrUpdateResource of the Dynamo and KubeRay providers against an API server that other actors
    change at any moment and a cache that may answer reads with an old version. */
module OptimisticWrites {
  import opened JsonValues

  /** One version of an object. The server never reuses a version number. */
  datatype Stored = Stored(version: nat, uid: nat, owners: set<string>, body: Fields)

  /** What a worker knows between its Get and its write. */
  datatype Pass =
    | NotRead
    | SawNothing(name: string, mdUid: string, desired: Fields)
    | Saw(name: string, mdUid: string, desired: Fields, existing: Stored)

  /** seen holds every version that was ever stored, with its name: what a stale read may return. */
  datatype State = State(objects: map<string, Stored>, next: nat, seen: set<(string, Stored)>, passes: map<nat, Pass>)

  datatype Action =
    | OtherCreates(name: string, owners: set<string>, body: Fields)
    | OtherEdits(name: string, owners: set<string>, body: Fields)
    | OtherDeletes(name: string)
    | Get(worker: nat, name: string, mdUid: string, desired: Fields, answer: Option<Stored>)
    | Write(worker: nat, differs: bool, admitted: bool)

  const Empty := State(map[], 0, {}, map[])

  function Put(s: State, name: string, uid: nat, owners: set<string>, body: Fields): State {
    var stored := Stored(s.next, uid, owners, body);
    s.(objects := s.objects[name := stored], next := s.next + 1, seen := s.seen + {(name, stored)})
  }

  function PassOf(s: State, worker: nat): Pass {
    if worker in s.passes then s.passes[worker] else NotRead
  }

  datatype Effect = Refused | Creates(name: string) | Updates(name: string)

  /** What the second half of createOrUpdateResource achieves: ownership check, drift check, then a Create
      that needs a free name or an Update that carries the version read. */
  function EffectOf(s: State, pass: Pass, differs: bool, admitted: bool): Effect {
    match pass
    case NotRead => Refused
    case SawNothing(name, _, _) =>
      if admitted && name !in s.objects then Creates(name) else Refused
    case Saw(name, mdUid, _, existing) =>
      if mdUid !in existing.owners then Refused
      else if !differs then Refused
      else if admitted && name in s.objects && s.objects[name].version == existing.version then Updates(name)
      else Refused
  }

  function Step(s: State, action: Action): State {
    match action
    case OtherCreates(name, owners, body) => if name in s.objects then s else Put(s, name, s.next, owners, body)
    case OtherEdits(name, owners, body) => if name in s.objects then Put(s, name, s.objects[name].uid, owners, body) else s
    case OtherDeletes(name) => s.(objects := s.objects - {name})
    case Get(worker, name, mdUid, desired, answer) =>
      var pass := match answer case None => SawNothing(name, mdUid, desired) case Some(existing) => Saw(name, mdUid, desired, existing);
      s.(passes := s.passes[worker := pass])
    case Write(worker, differs, admitted) =>
      var pass := PassOf(s, worker);
      var done := s.(passes := s.passes[worker := NotRead]);
      match EffectOf(s, pass, differs, admitted)
      case Refused => done
      case Creates(name) => Put(done, name, s.next, {pass.mdUid}, pass.desired)
      case Updates(name) => Put(done, name, s.objects[name].uid, {pass.mdUid}, pass.desired)
  }

  /** A read may return any version the name ever had, or nothing. */
  predicate Possible(s: State, action: Action) {
    action.Get? && action.answer.Some? ==> (action.name, action.answer.value) in s.seen
  }

  predicate IsRun(run: seq<Action>) {
    run != [] ==> IsRun(run[..|run| - 1]) && Possible(StateAfter(run[..|run| - 1]), run[|run| - 1])
  }

  function StateAfter(run: seq<Action>): State {
    if run == [] then Empty else Step(StateAfter(run[..|run| - 1]), run[|run| - 1])
  }

  /** What holds in every reachable state. */
  ghost predicate Consistent(s: State) {
    && (forall name <- s.objects :: (name, s.objects[name]) in s.seen)
    && (forall e <- s.seen :: e.1.version < s.next)
    && (forall e, f | e in s.seen && f in s.seen && e.1.version == f.1.version :: e == f)
    && (forall w <- s.passes :: s.passes[w].Saw? ==> (s.passes[w].name, s.passes[w].existing) in s.seen)
  }

  lemma PutKeepsConsistent(s: State, name: string, uid: nat, owners: set<string>, body: Fields)
    requires Consistent(s)
    ensures Consistent(Put(s, name, uid, owners, body))
  {
  }

  lemma WriteKeepsConsistent(s: State, worker: nat, differs: bool, admitted: bool)
    requires Consistent(s)
    ensures Consistent(Step(s, Write(worker, differs, admitted)))
  {
    var pass := PassOf(s, worker);
    var done := s.(passes := s.passes[worker := NotRead]);
    assert Consistent(done);
    match EffectOf(s, pass, differs, admitted)
    case Refused =>
    case Creates(name) => PutKeepsConsistent(done, name, s.next, {pass.mdUid}, pass.desired);
    case Updates(name) => PutKeepsConsistent(done, name, s.objects[name].uid, {pass.mdUid}, pass.desired);
  }

  lemma StepKeepsConsistent(s: State, action: Action)
    requires Consistent(s) && Possible(s, action)
    ensures Consistent(Step(s, action))
  {
    match action
    case OtherCreates(name, owners, body) => PutKeepsConsistent(s, name, s.next, owners, body);
    case OtherEdits(name, owners, body) =>
      if name in s.objects {
        PutKeepsConsistent(s, name, s.objects[name].uid, owners, body);
      }
    case OtherDeletes(name) =>
    case Get(_, _, _, _, _) =>
    case Write(worker, differs, admitted) => WriteKeepsConsistent(s, worker, differs, admitted);
  }

  lemma {:induction false} Reachable(run: seq<Action>)
    requires IsRun(run)
    ensures Consistent(StateAfter(run))
    decreases |run|
  {
    if run != [] {
      Reachable(run[..|run| - 1]);
      StepKeepsConsistent(StateAfter(run[..|run| - 1]), run[|run| - 1]);
    }
  }

  /** Whatever the other actors did and however stale the read was, a write that succeeds lands on a free
      name or on the very object version whose owner was verified. */
  lemma WritesLandWhereVerified(run: seq<Action>, worker: nat, differs: bool, admitted: bool)
    requires IsRun(run)
    ensures var s := StateAfter(run);
            var pass := PassOf(s, worker);
            match EffectOf(s, pass, differs, admitted)
            case Refused => Step(s, Write(worker, differs, admitted)).objects == s.objects
            case Creates(name) => pass.SawNothing? && name == pass.name && name !in s.objects
            case Updates(name) => pass.Saw? && name == pass.name && name in s.objects
                                  && s.objects[name] == pass.existing && pass.mdUid in s.objects[name].owners
  {
    Reachable(run);
  }

  /** Hence no write of a worker ever changes an object its deployment does not own. */
  lemma ForeignObjectsAreUntouched(run: seq<Action>, worker: nat, differs: bool, admitted: bool, name: string)
    requires IsRun(run)
    requires name in StateAfter(run).objects
    requires var pass := PassOf(StateAfter(run), worker);
             pass != NotRead ==> pass.mdUid !in StateAfter(run).objects[name].owners
    ensures var before, after := StateAfter(run), StateAfter(run + [Write(worker, differs, admitted)]);
            name in after.objects && after.objects[name] == before.objects[name]
  {
    var action := Write(worker, differs, admitted);
    assert (run + [action])[..|run|] == run;
    WritesLandWhereVerified(run, worker, differs, admitted);
  }

  /** The version carried by the update is what this rests on: there is a run after which the ownership
      check passes on what was read, the object belongs to someone else by now, and only the version
      comparison refuses the write. */
  lemma OnlyTheVersionRefuses()
    ensures exists run, name ::
      && IsRun(run)
      && var s := StateAfter(run);
         var pass := PassOf(s, 0);
         && name in s.objects && pass.Saw? && pass.name == name && pass.mdUid in pass.existing.owners
         && pass.mdUid !in s.objects[name].owners
         && EffectOf(s, pass, true, true) == Refused
  {
    var mine := Stored(0, 0, {"md"}, map[]);
    var r1 := [OtherCreates("ws", {"md"}, map[])];
    var r2 := r1 + [Get(0, "ws", "md", map[], Some(mine))];
    var r3 := r2 + [OtherEdits("ws", {"other"}, map[])];
    assert r1[..0] == [] && r2[..1] == r1 && r3[..2] == r2;
    var s1 := Step(Empty, r1[0]);
    assert StateAfter(r1) == s1;
    assert ("ws", mine) in s1.seen;
    var s2 := Step(s1, r2[1]);
    assert StateAfter(r2) == s2 && IsRun(r2);
    var s3 := Step(s2, r3[2]);
    assert StateAfter(r3) == s3 && IsRun(r3);
    assert PassOf(s3, 0) == Saw("ws", "md", map[], mine);
    assert "md" !in s3.objects["ws"].owners;
  }

  // ----- Writes that should happen do -----

  /** In every reachable state: what a write stores, and that it stores nothing else. */
  lemma WriteExactly(run: seq<Action>, worker: nat, differs: bool, admitted: bool)
    requires IsRun(run)
    ensures var s := StateAfter(run);
            var pass := PassOf(s, worker);
            var after := Step(s, Write(worker, differs, admitted));
            && PassOf(after, worker) == NotRead
            && after.objects ==
                 if pass.SawNothing? && admitted && pass.name !in s.objects then
                   s.objects[pass.name := Stored(s.next, s.next, {pass.mdUid}, pass.desired)]
                 else if pass.Saw? && pass.mdUid in pass.existing.owners && differs && admitted
                         && pass.name in s.objects && s.objects[pass.name] == pass.existing then
                   s.objects[pass.name := Stored(s.next, pass.existing.uid, {pass.mdUid}, pass.desired)]
                 else s.objects
  {
    Reachable(run);
  }

  /** The reads and writes of one pass that nobody disturbs; drift is a difference between the bodies. */
  function FreshRead(s: State, worker: nat, name: string, mdUid: string, desired: Fields): Action {
    Get(worker, name, mdUid, desired, if name in s.objects then Some(s.objects[name]) else None)
  }

  function UndisturbedPass(run: seq<Action>, worker: nat, name: string, mdUid: string, desired: Fields): seq<Action> {
    var s := StateAfter(run);
    run + [FreshRead(s, worker, name, mdUid, desired)]
    + [Write(worker, name in s.objects && s.objects[name].body != desired, true)]
  }

  /** What such a pass leaves: the desired body under its name, owned by the deployment alone and with the same uid as
      before, unless the object is someone else's; an object that already has that body is not written, and nothing
      else changes. */
  ghost predicate Repaired(before: map<string, Stored>, after: map<string, Stored>, name: string, mdUid: string, desired: Fields) {
    && before - {name} == after - {name}
    && if name in before && (mdUid !in before[name].owners || before[name].body == desired) then after == before
       else name in after && after[name].body == desired && after[name].owners == {mdUid}
            && (name in before ==> after[name].uid == before[name].uid)
  }

  lemma WriteAfterFreshRead(s: State, worker: nat, name: string, mdUid: string, desired: Fields)
    ensures var middle := Step(s, FreshRead(s, worker, name, mdUid, desired));
            var after := Step(middle, Write(worker, name in s.objects && s.objects[name].body != desired, true));
            Repaired(s.objects, after.objects, name, mdUid, desired)
  {
    var middle := Step(s, FreshRead(s, worker, name, mdUid, desired));
    var after := Step(middle, Write(worker, name in s.objects && s.objects[name].body != desired, true)).objects;
    assert middle.objects == s.objects;
    if after != s.objects {
      assert after == s.objects[name := after[name]];
      assert (s.objects[name := after[name]]) - {name} == s.objects - {name};
    }
  }

  lemma UndisturbedPassRepairsDrift(run: seq<Action>, worker: nat, name: string, mdUid: string, desired: Fields)
    requires IsRun(run)
    ensures var pass := UndisturbedPass(run, worker, name, mdUid, desired);
            IsRun(pass) && Repaired(StateAfter(run).objects, StateAfter(pass).objects, name, mdUid, desired)
  {
    var s := StateAfter(run);
    var read := FreshRead(s, worker, name, mdUid, desired);
    Reachable(run);
    RunGoesOn(run, read);
    RunGoesOn(run + [read], Write(worker, name in s.objects && s.objects[name].body != desired, true));
    WriteAfterFreshRead(s, worker, name, mdUid, desired);
  }

  lemma RunGoesOn(run: seq<Action>, action: Action)
    requires IsRun(run) && Possible(StateAfter(run), action)
    ensures IsRun(run + [action]) && StateAfter(run + [action]) == Step(StateAfter(run), action)
  {
    assert (run + [action])[..|run|] == run;
  }
}
