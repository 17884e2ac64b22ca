/** What every handler that can write does write: its snapshot and its manifest, suppressed or not. */
module StoreWrites {
  import opened Text
  import opened Keys
  import opened Capture
  import opened BlobFirst
  import RL = RateLimit

  /** The two steps that put a small object. */
  datatype Stage = SnapshotStage | ManifestStage

  predicate At(pc: Pc, stage: Stage) {
    if stage == SnapshotStage then pc.Drained? else pc.Snapshotted?
  }

  /** Where an object of a handler goes: its own cluster, pod, container, crash time and pid, in this order. */
  lemma ObjectKeyReads(job: Job, kind: Kind)
    requires job.identity.Some? && '/' !in job.cluster
    requires '/' !in job.identity.value.podUid && '/' !in job.identity.value.containerId
    ensures var file := Decimal(job.timestamp) + "-" + Decimal(job.hostPid)
                        + (match kind
                           case Core => "-core.zst"
                           case ProcSnapshot => "-procsnapshot.tar"
                           case ManifestJson => "-manifest.json");
            Split(KeyOf(job, kind), '/')
            == [job.cluster, job.identity.value.podUid, job.identity.value.containerId, file]
  {
    KeyReads(TupleOf(job), kind);
  }

  /** What the environment did to handler `i` in its step of that stage, if it has taken it. */
  function EnvOf(max: RL.U32, jobs: seq<Job>, schedule: Schedule, i: nat, stage: Stage): Option<Env> {
    if schedule == [] then None
    else
      var n := |schedule| - 1;
      var before := Exec(Initial(max, jobs), schedule[..n]);
      var (j, env) := schedule[n];
      if j == i && i < |before.procs| && At(before.procs[i].pc, stage) && !env.kill then Some(env)
      else EnvOf(max, jobs, schedule[..n], i, stage)
  }

  /** The handler had somewhere to put the object, rendered it, and the put took effect. */
  predicate Landed(job: Job, e: Option<Env>) {
    && job.identity.Some? && job.hasStore
    && e.Some? && e.value.rendered && (e.value.put.PutOk? || e.value.put.applied)
  }

  /** And the put reported success: only then is the object referred to. */
  function RefTo(job: Job, e: Option<Env>, kind: Kind): Option<string> {
    if job.identity.Some? && job.hasStore && e.Some? && e.value.rendered && e.value.put.PutOk?
    then Some(KeyOf(job, kind)) else None
  }

  predicate BeforeSnapshot(pc: Pc) {
    pc.Start? || pc.Draining? || pc.DrainFailed? || pc.FailureHandled? || pc.Drained?
    || (pc.Done? && pc.built.None?) || (pc.Killed? && BeforeSnapshot(pc.at))
  }

  predicate BeforeManifest(pc: Pc) {
    BeforeSnapshot(pc) || pc.Snapshotted? || (pc.Killed? && BeforeManifest(pc.at))
  }

  ghost predicate SnapshotStored(store: map<string, Object>, job: Job, e: Option<Env>) {
    job.identity.Some? ==>
      var key := KeyOf(job, ProcSnapshot);
      (key in store <==> Landed(job, e)) && (key in store ==> store[key] == TarObject)
  }

  ghost predicate SnapshotKnown(p: Process, e: Option<Env>) {
    && (BeforeSnapshot(p.pc) ==> e.None?)
    && (p.pc.Snapshotted? ==> e.Some? && p.pc.procRef == RefTo(p.job, e, ProcSnapshot))
    && (p.pc.Recorded? ==> e.Some? && p.pc.manifest.procSnapshot == RefTo(p.job, e, ProcSnapshot))
    && (p.pc.Done? && p.pc.built.Some? ==> e.Some? && p.pc.built.value.procSnapshot == RefTo(p.job, e, ProcSnapshot))
  }

  ghost predicate SnapshotTrue(store: map<string, Object>, p: Process, e: Option<Env>) {
    SnapshotStored(store, p.job, e) && SnapshotKnown(p, e)
  }

  ghost predicate ManifestStored(store: map<string, Object>, job: Job, e: Option<Env>) {
    job.identity.Some? ==> (KeyOf(job, ManifestJson) in store <==> Landed(job, e))
  }

  ghost predicate ManifestKnown(p: Process, e: Option<Env>) {
    && (BeforeManifest(p.pc) ==> e.None?)
    && (p.pc.Recorded? ==> e.Some? && p.pc.manifestKey == RefTo(p.job, e, ManifestJson))
    && (p.pc.Done? && p.pc.built.Some? ==> e.Some? && p.pc.report.manifestKey == RefTo(p.job, e, ManifestJson))
  }

  /** The manifest a process has built, once it has taken the step that puts it. */
  function BuiltBy(pc: Pc): Option<Manifest> {
    if pc.Recorded? then Some(pc.manifest) else if pc.Done? then pc.built else None
  }

  /** What is stored under the manifest's key is the manifest that was built. */
  ghost predicate ManifestSame(store: map<string, Object>, p: Process) {
    p.job.identity.Some? && KeyOf(p.job, ManifestJson) in store && BuiltBy(p.pc).Some? ==>
      store[KeyOf(p.job, ManifestJson)] == ManifestObject(BuiltBy(p.pc).value)
  }

  ghost predicate ManifestTrue(store: map<string, Object>, p: Process, e: Option<Env>) {
    ManifestStored(store, p.job, e) && ManifestKnown(p, e) && ManifestSame(store, p)
  }

  /** The three keys of a job are different. */
  ghost predicate KeysApart(job: Job) {
    job.identity.Some? ==>
      && KeyOf(job, Core) != KeyOf(job, ProcSnapshot) && KeyOf(job, Core) != KeyOf(job, ManifestJson)
      && KeyOf(job, ProcSnapshot) != KeyOf(job, ManifestJson)
  }

  /** `e`, or this step's environment if it is the step of that stage. */
  function EnvNow(p: Process, env: Env, stage: Stage, e: Option<Env>): Option<Env> {
    if At(p.pc, stage) && !env.kill then Some(env) else e
  }

  lemma NextSnapshotTrue(store: map<string, Object>, p: Process, allowed: bool, env: Env, e: Option<Env>)
    requires SnapshotTrue(store, p, e) && KeysApart(p.job)
    ensures SnapshotTrue(StoreAfter(store, p, env), Next(p, allowed, env), EnvNow(p, env, SnapshotStage, e))
  {
    if p.pc.Drained? {
      SnapshotStep(store, p, allowed, env, e);
    } else {
      OtherSnapshotStep(store, p, allowed, env, e);
    }
  }

  lemma SnapshotStep(store: map<string, Object>, p: Process, allowed: bool, env: Env, e: Option<Env>)
    requires p.pc.Drained? && SnapshotTrue(store, p, e)
    ensures SnapshotTrue(StoreAfter(store, p, env), Next(p, allowed, env), EnvNow(p, env, SnapshotStage, e))
  {
  }

  lemma OtherSnapshotStep(store: map<string, Object>, p: Process, allowed: bool, env: Env, e: Option<Env>)
    requires !p.pc.Drained? && SnapshotTrue(store, p, e) && KeysApart(p.job)
    ensures SnapshotTrue(StoreAfter(store, p, env), Next(p, allowed, env), e)
  {
    SnapshotKept(p, allowed, env, e);
    if p.job.identity.Some? {
      OtherKeyKept(store, p, env, ProcSnapshot);
    }
  }

  lemma SnapshotKept(p: Process, allowed: bool, env: Env, e: Option<Env>)
    requires !p.pc.Drained? && SnapshotKnown(p, e)
    ensures Next(p, allowed, env).job == p.job && SnapshotKnown(Next(p, allowed, env), e)
  {
  }

  /** A step that puts another object leaves this one as it is. */
  lemma OtherKeyKept(store: map<string, Object>, p: Process, env: Env, kind: Kind)
    requires p.job.identity.Some? && KeysApart(p.job)
    requires if kind == ProcSnapshot then !p.pc.Drained? else kind == ManifestJson && !p.pc.Snapshotted?
    ensures var key, store' := KeyOf(p.job, kind), StoreAfter(store, p, env);
            (key in store' <==> key in store) && (key in store ==> store'[key] == store[key])
  {
  }

  lemma NextManifestTrue(store: map<string, Object>, p: Process, allowed: bool, env: Env, e: Option<Env>)
    requires ManifestTrue(store, p, e) && KeysApart(p.job)
    ensures ManifestTrue(StoreAfter(store, p, env), Next(p, allowed, env), EnvNow(p, env, ManifestStage, e))
  {
    if p.pc.Snapshotted? {
      ManifestStep(store, p, allowed, env, e);
    } else {
      OtherManifestStep(store, p, allowed, env, e);
    }
  }

  lemma ManifestStep(store: map<string, Object>, p: Process, allowed: bool, env: Env, e: Option<Env>)
    requires p.pc.Snapshotted? && ManifestTrue(store, p, e)
    ensures ManifestTrue(StoreAfter(store, p, env), Next(p, allowed, env), EnvNow(p, env, ManifestStage, e))
  {
  }

  lemma OtherManifestStep(store: map<string, Object>, p: Process, allowed: bool, env: Env, e: Option<Env>)
    requires !p.pc.Snapshotted? && ManifestTrue(store, p, e) && KeysApart(p.job)
    ensures ManifestTrue(StoreAfter(store, p, env), Next(p, allowed, env), e)
  {
    ManifestKept(p, allowed, env, e);
    if p.job.identity.Some? {
      OtherKeyKept(store, p, env, ManifestJson);
    }
  }

  lemma ManifestKept(p: Process, allowed: bool, env: Env, e: Option<Env>)
    requires !p.pc.Snapshotted? && ManifestKnown(p, e)
    ensures var p' := Next(p, allowed, env);
            p'.job == p.job && ManifestKnown(p', e)
            && (BuiltBy(p'.pc).Some? ==> BuiltBy(p'.pc) == BuiltBy(p.pc))
  {
  }

  /** Another handler's step does not touch these keys. */
  lemma OthersKeep(procs: seq<Process>, i: nat, j: nat, store: map<string, Object>, env: Env, kind: Kind)
    requires DistinctTuples(procs) && i < |procs| && j < |procs| && i != j && procs[j].job.identity.Some?
    ensures var key, store' := KeyOf(procs[j].job, kind), StoreAfter(store, procs[i], env);
            (key in store' <==> key in store) && (key in store ==> store'[key] == store[key])
  {
    var write := StoreWrite(procs[i], env);
    if write.Some? {
      OthersKeysDiffer(procs, i, j, write.value.0, kind);
    }
  }

  lemma KeysAreApart(procs: seq<Process>, i: nat)
    requires DistinctTuples(procs) && i < |procs|
    ensures KeysApart(procs[i].job)
  {
    if procs[i].job.identity.Some? {
      OthersKeysDiffer(procs, i, i, Core, ProcSnapshot);
      OthersKeysDiffer(procs, i, i, Core, ManifestJson);
      OthersKeysDiffer(procs, i, i, ProcSnapshot, ManifestJson);
    }
  }

  lemma StepWrites(w: World, i: nat, env: Env, j: nat, s: Option<Env>, m: Option<Env>)
    requires DistinctTuples(w.procs) && i < |w.procs| && j < |w.procs|
    requires SnapshotTrue(w.store, w.procs[j], s) && ManifestTrue(w.store, w.procs[j], m)
    ensures var w', p := Step(w, i, env), w.procs[j];
            && SnapshotTrue(w'.store, w'.procs[j], if i == j then EnvNow(p, env, SnapshotStage, s) else s)
            && ManifestTrue(w'.store, w'.procs[j], if i == j then EnvNow(p, env, ManifestStage, m) else m)
  {
    if i == j {
      var call := LimiterCall(w.procs[i], env);
      KeysAreApart(w.procs, i);
      NextSnapshotTrue(w.store, w.procs[i], call.Some? && Answer(w, call.value), env, s);
      NextManifestTrue(w.store, w.procs[i], call.Some? && Answer(w, call.value), env, m);
    } else if w.procs[j].job.identity.Some? {
      OthersKeep(w.procs, i, j, w.store, env, ProcSnapshot);
      OthersKeep(w.procs, i, j, w.store, env, ManifestJson);
    }
  }

  lemma {:induction false} WritesAreTrue(max: RL.U32, jobs: seq<Job>, schedule: Schedule, j: nat)
    requires DistinctTuples(Initial(max, jobs).procs) && j < |jobs|
    ensures var w := Exec(Initial(max, jobs), schedule);
            && DistinctTuples(w.procs) && |w.procs| == |jobs| && w.procs[j].job == jobs[j]
            && SnapshotTrue(w.store, w.procs[j], EnvOf(max, jobs, schedule, j, SnapshotStage))
            && ManifestTrue(w.store, w.procs[j], EnvOf(max, jobs, schedule, j, ManifestStage))
    decreases |schedule|
  {
    if schedule != [] {
      var n := |schedule| - 1;
      WritesAreTrue(max, jobs, schedule[..n], j);
      var before := Exec(Initial(max, jobs), schedule[..n]);
      var (i, env) := schedule[n];
      if i < |before.procs| {
        TuplesStay(before, i, env);
        StepWrites(before, i, env, j, EnvOf(max, jobs, schedule[..n], j, SnapshotStage),
                   EnvOf(max, jobs, schedule[..n], j, ManifestStage));
      }
    }
  }

  lemma TuplesStay(w: World, i: nat, env: Env)
    requires DistinctTuples(w.procs) && i < |w.procs|
    ensures var procs' := Step(w, i, env).procs;
            && |procs'| == |w.procs| && DistinctTuples(procs')
            && forall j :: 0 <= j < |w.procs| ==> procs'[j].job == w.procs[j].job
  {
    JobsStay(w, i, env);
    SameTuples(w.procs, Step(w, i, env).procs);
  }

  /**
   Over every schedule, for every handler that finished without a failed drain, suppressed or not:
   it took both steps; its manifest is in the store under its own key if and only if it had a target,
   rendered the manifest and the put took effect, and its report names it if and only if the put also
   succeeded. The same holds for its snapshot and for the reference to it in the manifest.
   */
  lemma WhatIsPossibleIsWritten(max: RL.U32, jobs: seq<Job>, schedule: Schedule, j: nat)
    requires DistinctTuples(Initial(max, jobs).procs) && j < |jobs|
    requires var w := Exec(Initial(max, jobs), schedule);
             j < |w.procs| && w.procs[j].pc.Done? && w.procs[j].pc.built.Some?
    ensures EnvOf(max, jobs, schedule, j, SnapshotStage).Some? && EnvOf(max, jobs, schedule, j, ManifestStage).Some?
    ensures var w, job := Exec(Initial(max, jobs), schedule), jobs[j];
            var s := EnvOf(max, jobs, schedule, j, SnapshotStage).value;
            var m := EnvOf(max, jobs, schedule, j, ManifestStage).value;
            var report, built := w.procs[j].pc.report, w.procs[j].pc.built.value;
            if job.identity.Some? && job.hasStore then
              var mkey, skey := KeyOf(job, ManifestJson), KeyOf(job, ProcSnapshot);
              && (mkey in w.store <==> m.rendered && (m.put.PutOk? || m.put.applied))
              && (mkey in w.store ==> w.store[mkey] == ManifestObject(built))
              && report.manifestKey == (if m.rendered && m.put.PutOk? then Some(mkey) else None)
              && (skey in w.store <==> s.rendered && (s.put.PutOk? || s.put.applied))
              && (skey in w.store ==> w.store[skey] == TarObject)
              && built.procSnapshot == (if s.rendered && s.put.PutOk? then Some(skey) else None)
            else
              report.manifestKey.None? && built.procSnapshot.None?
  {
    WritesAreTrue(max, jobs, schedule, j);
  }
}
