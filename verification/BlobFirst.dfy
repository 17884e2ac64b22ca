/** No stored manifest ever points at a missing or different core, or at a missing snapshot. */
module BlobFirst {
  import opened Text
  import opened Keys
  import opened Capture
  import Drain
  import RL = RateLimit

  /** Everything the manifest refers to is in the store, with the hash and size it records. */
  ghost predicate Linked(store: map<string, Object>, m: Manifest) {
    && (m.core.present ==>
          && m.core.objectKey.Some? && m.core.sha256.Some? && m.core.storedBytes.Some?
          && m.core.objectKey.value in store
          && store[m.core.objectKey.value] == CoreObject(m.core.sha256.value, m.core.storedBytes.value))
    && (m.procSnapshot.Some? ==> m.procSnapshot.value in store && store[m.procSnapshot.value] == TarObject)
  }

  ghost predicate AllManifestsLinked(store: map<string, Object>) {
    forall k :: k in store && store[k].ManifestObject? ==> Linked(store, store[k].manifest)
  }

  /** Captures have different key tuples, whose identity parts the cgroup parser made slash-free. */
  ghost predicate DistinctTuples(procs: seq<Process>) {
    && (forall i :: 0 <= i < |procs| && procs[i].job.identity.Some? ==> SlashFree(TupleOf(procs[i].job)))
    && (forall i, j :: 0 <= i < j < |procs| && procs[i].job.identity.Some? && procs[j].job.identity.Some?
                       ==> TupleOf(procs[i].job) != TupleOf(procs[j].job))
  }

  /** The process may still write its core or its snapshot. */
  predicate BlobsPending(pc: Pc) {
    pc.Start? || pc.Draining? || pc.Drained?
  }

  function StatsIn(pc: Pc): Option<Drain.CoreStats> {
    if pc.Drained? || pc.Snapshotted? then Some(pc.stats) else None
  }

  /** The local variables of a process tell the truth about the store. */
  ghost predicate Tracks(store: map<string, Object>, p: Process) {
    var stats := StatsIn(p.pc);
    && (stats.Some? && stats.value.sha256.Some? ==>
          && Target(p.job) && KeyOf(p.job, Core) in store
          && store[KeyOf(p.job, Core)] == CoreObject(stats.value.sha256.value, stats.value.storedBytes))
    && (p.pc.Snapshotted? && p.pc.procRef.Some? ==>
          && Target(p.job) && p.pc.procRef.value == KeyOf(p.job, ProcSnapshot)
          && KeyOf(p.job, ProcSnapshot) in store && store[KeyOf(p.job, ProcSnapshot)] == TarObject)
    && (p.pc.Recorded? && p.pc.manifestKey.Some? ==> Holds(store, p.job, p.pc.manifestKey.value, p.pc.manifest))
    && (p.pc.Done? && p.pc.report.manifestKey.Some? ==>
          p.pc.built.Some? && Holds(store, p.job, p.pc.report.manifestKey.value, p.pc.built.value))
  }

  /** The store holds `m` at `key`, the manifest key of `job`. */
  ghost predicate Holds(store: map<string, Object>, job: Job, key: string, m: Manifest) {
    Target(job) && key == KeyOf(job, ManifestJson) && key in store && store[key] == ManifestObject(m)
  }

  /** `p` wrote the manifest `m` at `k`, which refers only to `p`'s own blobs; those are final. */
  ghost predicate Wrote(p: Process, k: string, m: Manifest) {
    && Target(p.job) && !BlobsPending(p.pc) && k == KeyOf(p.job, ManifestJson)
    && (m.core.present ==> m.core.objectKey == Some(KeyOf(p.job, Core)))
    && (m.procSnapshot.Some? ==> m.procSnapshot == Some(KeyOf(p.job, ProcSnapshot)))
  }

  ghost predicate Written(procs: seq<Process>, k: string, m: Manifest) {
    exists j :: 0 <= j < |procs| && Wrote(procs[j], k, m)
  }

  ghost predicate Inv(w: World) {
    && DistinctTuples(w.procs)
    && (forall j :: 0 <= j < |w.procs| ==> Tracks(w.store, w.procs[j]))
    && AllManifestsLinked(w.store)
    && (forall k :: k in w.store && w.store[k].ManifestObject? ==> Written(w.procs, k, w.store[k].manifest))
  }

  lemma OthersKeysDiffer(procs: seq<Process>, i: nat, j: nat, k: Kind, l: Kind)
    requires DistinctTuples(procs) && i < |procs| && j < |procs|
    requires procs[i].job.identity.Some? && procs[j].job.identity.Some?
    requires i != j || k != l
    ensures KeyOf(procs[i].job, k) != KeyOf(procs[j].job, l)
  {
    if KeyOf(procs[i].job, k) == KeyOf(procs[j].job, l) {
      KeyInjective(TupleOf(procs[i].job), k, TupleOf(procs[j].job), l);
    }
  }

  lemma JobsStay(w: World, i: nat, env: Env)
    requires i < |w.procs|
    ensures |Step(w, i, env).procs| == |w.procs|
    ensures forall j :: 0 <= j < |w.procs| ==> Step(w, i, env).procs[j].job == w.procs[j].job
  {
  }

  lemma SameTuples(procs: seq<Process>, procs': seq<Process>)
    requires DistinctTuples(procs) && |procs'| == |procs|
    requires forall j :: 0 <= j < |procs| ==> procs'[j].job == procs[j].job
    ensures DistinctTuples(procs')
  {
  }

  /** Process `i` becomes `p` and may write `value` under its own key of kind `kind`. */
  ghost predicate OwnWrite(w: World, w': World, i: nat, p: Process, kind: Kind, value: Object) {
    && i < |w.procs| && w'.procs == w.procs[i := p] && p.job == w.procs[i].job
    && (w'.store == w.store || (Target(p.job) && w'.store == w.store[KeyOf(p.job, kind) := value]))
  }

  /** What holds of the other processes survives process `i`'s own write. */
  lemma OthersKeepTrack(w: World, w': World, i: nat, p: Process, kind: Kind, value: Object)
    requires Inv(w) && OwnWrite(w, w', i, p, kind, value)
    ensures DistinctTuples(w'.procs)
    ensures forall j :: 0 <= j < |w.procs| && j != i ==> Tracks(w'.store, w'.procs[j])
  {
    forall j | 0 <= j < |w.procs| && j != i
      ensures Tracks(w'.store, w'.procs[j])
    {
      assert Tracks(w.store, w.procs[j]);
      if Target(p.job) && Target(w.procs[j].job) {
        OthersKeysDiffer(w.procs, i, j, kind, Core);
        OthersKeysDiffer(w.procs, i, j, kind, ProcSnapshot);
        OthersKeysDiffer(w.procs, i, j, kind, ManifestJson);
      }
    }
  }

  /**
   A manifest stored earlier stays linked: its blobs belong to a process that will not write
   blobs again, and no other process has those keys.
   */
  lemma OldManifestsStay(w: World, w': World, i: nat, p: Process, kind: Kind, value: Object, k: string)
    requires Inv(w) && OwnWrite(w, w', i, p, kind, value)
    requires BlobsPending(p.pc) ==> BlobsPending(w.procs[i].pc)
    requires kind != ManifestJson ==> BlobsPending(w.procs[i].pc)
    requires k in w.store && w.store[k].ManifestObject?
    requires !(Target(p.job) && k == KeyOf(p.job, kind) && kind == ManifestJson)
    ensures k in w'.store && w'.store[k] == w.store[k]
    ensures Linked(w'.store, w.store[k].manifest) && Written(w'.procs, k, w.store[k].manifest)
  {
    var m := w.store[k].manifest;
    assert Written(w.procs, k, m);
    var j :| 0 <= j < |w.procs| && Wrote(w.procs[j], k, m);
    if Target(p.job) && i != j {
      OthersKeysDiffer(w.procs, i, j, kind, ManifestJson);
      OthersKeysDiffer(w.procs, i, j, kind, Core);
      OthersKeysDiffer(w.procs, i, j, kind, ProcSnapshot);
    }
    assert Wrote(w'.procs[j], k, m);
  }

  /** The part of the invariant about stored manifests, for a step that writes none. */
  lemma BlobStep(w: World, w': World, i: nat, p: Process, kind: Kind, value: Object)
    requires Inv(w) && OwnWrite(w, w', i, p, kind, value)
    requires BlobsPending(p.pc) ==> BlobsPending(w.procs[i].pc)
    requires kind != ManifestJson && BlobsPending(w.procs[i].pc) && !value.ManifestObject?
    requires Tracks(w'.store, p)
    ensures Inv(w')
  {
    OthersKeepTrack(w, w', i, p, kind, value);
    forall k | k in w'.store && w'.store[k].ManifestObject?
      ensures Linked(w'.store, w'.store[k].manifest) && Written(w'.procs, k, w'.store[k].manifest)
    {
      OldManifestsStay(w, w', i, p, kind, value, k);
    }
  }

  lemma ManifestStep(w: World, w': World, i: nat, p: Process, m: Manifest)
    requires Inv(w) && OwnWrite(w, w', i, p, ManifestJson, ManifestObject(m))
    requires !BlobsPending(p.pc) && Tracks(w'.store, p)
    requires w'.store != w.store ==> Linked(w'.store, m) && Wrote(p, KeyOf(p.job, ManifestJson), m)
    ensures Inv(w')
  {
    OthersKeepTrack(w, w', i, p, ManifestJson, ManifestObject(m));
    forall k | k in w'.store && w'.store[k].ManifestObject?
      ensures Linked(w'.store, w'.store[k].manifest) && Written(w'.procs, k, w'.store[k].manifest)
    {
      if w'.store != w.store && k == KeyOf(p.job, ManifestJson) {
        assert Wrote(w'.procs[i], k, m);
      } else if Target(p.job) && k == KeyOf(p.job, ManifestJson) {
        SameStoreManifest(w, w', i, p, k);
      } else {
        OldManifestsStay(w, w', i, p, ManifestJson, ManifestObject(m), k);
      }
    }
  }

  lemma SameStoreManifest(w: World, w': World, i: nat, p: Process, k: string)
    requires Inv(w) && i < |w.procs| && w'.procs == w.procs[i := p] && p.job == w.procs[i].job
    requires w'.store == w.store && !BlobsPending(p.pc)
    requires k in w.store && w.store[k].ManifestObject?
    ensures Linked(w'.store, w.store[k].manifest) && Written(w'.procs, k, w.store[k].manifest)
  {
    var m := w.store[k].manifest;
    assert Written(w.procs, k, m);
    var j :| 0 <= j < |w.procs| && Wrote(w.procs[j], k, m);
    assert Wrote(w'.procs[j], k, m);
  }

  /** A step that leaves the store alone. */
  lemma QuietStep(w: World, w': World, i: nat, p: Process)
    requires Inv(w) && i < |w.procs| && w'.procs == w.procs[i := p] && p.job == w.procs[i].job
    requires w'.store == w.store
    requires BlobsPending(p.pc) ==> BlobsPending(w.procs[i].pc)
    requires Tracks(w.store, p)
    ensures Inv(w')
  {
    forall k | k in w'.store && w'.store[k].ManifestObject?
      ensures Written(w'.procs, k, w'.store[k].manifest)
    {
      var m := w.store[k].manifest;
      assert Written(w.procs, k, m);
      var j :| 0 <= j < |w.procs| && Wrote(w.procs[j], k, m);
      assert Wrote(w'.procs[j], k, m);
    }
  }

  /** After its step a process still tracks the store: it has just written what it remembers. */
  lemma StepTracks(w: World, i: nat, env: Env)
    requires Inv(w) && i < |w.procs|
    ensures var w' := Step(w, i, env);
            Tracks(w'.store, w'.procs[i])
  {
    var p, write, call := w.procs[i], StoreWrite(w.procs[i], env), LimiterCall(w.procs[i], env);
    assert Tracks(w.store, p);
    if Target(p.job) {
      OthersKeysDiffer(w.procs, i, i, ProcSnapshot, Core);
    }
    NextTracks(w.store, p, call.Some? && Answer(w, call.value), env);
  }

  function StoreAfter(store: map<string, Object>, p: Process, env: Env): map<string, Object> {
    var write := StoreWrite(p, env);
    if write.Some? then store[KeyOf(p.job, write.value.0) := write.value.1] else store
  }

  lemma NextTracks(store: map<string, Object>, p: Process, allowed: bool, env: Env)
    requires Tracks(store, p) && (Target(p.job) ==> KeyOf(p.job, ProcSnapshot) != KeyOf(p.job, Core))
    ensures Tracks(StoreAfter(store, p, env), Next(p, allowed, env))
  {
    if p.pc.Draining? {
      DrainTracks(store, p, allowed, env);
    } else if p.pc.Drained? {
      SnapshotTracks(store, p, allowed, env);
    } else if p.pc.Snapshotted? {
      ManifestTracks(store, p, allowed, env);
    }
  }

  lemma ManifestTracks(store: map<string, Object>, p: Process, allowed: bool, env: Env)
    requires p.pc.Snapshotted?
    ensures Tracks(StoreAfter(store, p, env), Next(p, allowed, env))
  {
  }

  lemma DrainTracks(store: map<string, Object>, p: Process, allowed: bool, env: Env)
    requires p.pc.Draining?
    ensures Tracks(StoreAfter(store, p, env), Next(p, allowed, env))
  {
  }

  lemma SnapshotTracks(store: map<string, Object>, p: Process, allowed: bool, env: Env)
    requires p.pc.Drained? && Tracks(store, p)
    requires Target(p.job) ==> KeyOf(p.job, ProcSnapshot) != KeyOf(p.job, Core)
    ensures Tracks(StoreAfter(store, p, env), Next(p, allowed, env))
  {
  }

  lemma NewManifestLinked(w: World, i: nat, env: Env)
    requires Inv(w) && i < |w.procs|
    requires var write := StoreWrite(w.procs[i], env); write.Some? && write.value.0 == ManifestJson
    ensures var w', m := Step(w, i, env), StoreWrite(w.procs[i], env).value.1;
            m.ManifestObject? && Linked(w'.store, m.manifest)
            && Wrote(w'.procs[i], KeyOf(w.procs[i].job, ManifestJson), m.manifest)
  {
    assert Tracks(w.store, w.procs[i]);
    OthersKeysDiffer(w.procs, i, i, ManifestJson, Core);
    OthersKeysDiffer(w.procs, i, i, ManifestJson, ProcSnapshot);
  }

  lemma StepKeepsInv(w: World, i: nat, env: Env)
    requires Inv(w) && i < |w.procs|
    ensures Inv(Step(w, i, env))
  {
    var p, w', write := w.procs[i], Step(w, i, env), StoreWrite(w.procs[i], env);
    var p' := w'.procs[i];
    StepTracks(w, i, env);
    match write
    case None => QuietStep(w, w', i, p');
    case Some((kind, value)) =>
      if kind == ManifestJson {
        NewManifestLinked(w, i, env);
        ManifestStep(w, w', i, p', value.manifest);
      } else {
        BlobStep(w, w', i, p', kind, value);
      }
  }

  /**
   Blob-first safety: for any number of handlers, any interleaving, any failure or death between
   any two steps, every manifest in the store is linked, and every manifest key that was reported
   names the manifest its handler built.
   */
  lemma {:induction false} ManifestsAlwaysLinked(max: RL.U32, jobs: seq<Job>, schedule: Schedule)
    requires DistinctTuples(Initial(max, jobs).procs)
    ensures AllManifestsLinked(Exec(Initial(max, jobs), schedule).store)
    ensures var w := Exec(Initial(max, jobs), schedule);
            forall j :: 0 <= j < |w.procs| && w.procs[j].pc.Done? && w.procs[j].pc.report.manifestKey.Some? ==>
              w.procs[j].pc.built.Some?
              && Holds(w.store, w.procs[j].job, w.procs[j].pc.report.manifestKey.value, w.procs[j].pc.built.value)
    ensures Inv(Exec(Initial(max, jobs), schedule))
    decreases |schedule|
  {
    if schedule != [] {
      var n := |schedule| - 1;
      ManifestsAlwaysLinked(max, jobs, schedule[..n]);
      var before := Exec(Initial(max, jobs), schedule[..n]);
      var (i, env) := schedule[n];
      if i < |before.procs| {
        StepKeepsInv(before, i, env);
      }
    }
  }
}
