/** The handler as the sequential program it is: one process, mutable locals, shared resources. */
module Handler {
  import opened Text
  import opened Keys
  import opened Capture
  import Drain
  import RL = RateLimit

  /** What the environment decides about one uninterrupted run. */
  datatype Surroundings = Surroundings(
    checkIo: RL.Io,
    script: Drain.Script,
    leftBehind: Option<Object>,
    refundIo: RL.Io,
    tarRendered: bool,
    tarPut: Put,
    jsonRendered: bool,
    manifestPut: Put)

  function DataOf(chunks: seq<Drain.Chunk>): seq<Drain.Bytes> {
    seq(|chunks|, i requires 0 <= i < |chunks| => chunks[i].data)
  }

  lemma {:induction false} DataIsStream(chunks: seq<Drain.Chunk>)
    ensures Drain.Concat(DataOf(chunks)) == Drain.Stream(chunks)
  {
    if chunks != [] {
      var n := |chunks| - 1;
      DataIsStream(chunks[..n]);
      assert DataOf(chunks)[..n] == DataOf(chunks[..n]);
    }
  }

  /** The drain's end, by the backend the process uses. Only a failed finalization can leave an object behind. */
  ghost function DrainEndOf(stores: bool, s: Surroundings, maxCoreBytes: nat, sha: Drain.Bytes -> string): DrainEnd {
    match (if stores then Drain.StandaloneResult(s.script, maxCoreBytes, sha)
           else Drain.DiscardResult(DataOf(s.script.chunks), s.script.end))
    case Ok(stats) =>
      DrainOk(stats.bytes, stats.storedBytes, if stats.sha256.Some? then stats.sha256.value else "",
              stats.truncatedReason)
    case Err(_) =>
      DrainErr(if stores && Drain.LoopCompletes(s.script, Drain.Cap(maxCoreBytes)) then s.leftBehind else None)
  }

  /** What one process sees: the shared resources, itself, and what it has sent. */
  datatype View = View(events: RL.Events, store: map<string, Object>, proc: Process, sent: seq<Report>)

  /** One step of the machine, for a process on its own. */
  ghost function Move(max: RL.U32, v: View, env: Env): View {
    var w := Step(World(max, v.events, [], v.store, [], [v.proc]), 0, env);
    View(w.events, w.store, w.procs[0], v.sent + if w.inbox == [] then [] else [w.inbox[0].1])
  }

  ghost function Alive(io: RL.Io, drain: DrainEnd, rendered: bool, put: Put): Env {
    Env(false, io, drain, rendered, put)
  }

  /** Five steps of the machine with nothing in between and no death. */
  ghost function Alone(max: RL.U32, v0: View, s: Surroundings, maxCoreBytes: nat, sha: Drain.Bytes -> string): View {
    var v1 := Move(max, v0, Alive(s.checkIo, DrainErr(None), false, PutOk));
    var v2 := Move(max, v1, Alive(RL.IoOk, DrainEndOf(Stores(v1.proc), s, maxCoreBytes, sha), false, PutOk));
    Rest(max, v2, s)
  }

  /** The three steps after the drain. */
  ghost function Rest(max: RL.U32, v2: View, s: Surroundings): View {
    var v3 := Move(max, v2, Alive(s.refundIo, DrainErr(None), s.tarRendered, s.tarPut));
    var v4 := Move(max, v3, Alive(RL.IoOk, DrainErr(None), s.jsonRendered, s.manifestPut));
    Move(max, v4, Alive(RL.IoOk, DrainErr(None), false, PutOk))
  }

  /** A handler that has asked the limiter, or found no need to. */
  function Consulted(job: Job, suppressed: bool, rateRecorded: bool, io: RL.Io): Process {
    Process(job, suppressed, rateRecorded, false, rateRecorded && io != RL.IoOk, Draining)
  }

  // ----- what a run does, in terms of its surroundings alone -----

  ghost predicate DrainCompletes(stores: bool, s: Surroundings, maxCoreBytes: nat) {
    if stores then Drain.LoopCompletes(s.script, Drain.Cap(maxCoreBytes)) && s.script.shutdown == Drain.Finished
    else s.script.end != Drain.ReadElapsed
  }

  /** The handler is admitted: without a limit, without the state file, or with fewer than `max` uploads in the hour. */
  ghost predicate Admitted(max: RL.U32, events: RL.Events, job: Job, io: RL.Io)
    requires job.identity.Some?
  {
    max == 0 || io != RL.IoOk
    || |RL.After(RL.Times(events, job.identity.value.podUid), job.timestamp - 3600)| < max
  }

  /** The core goes to the store: identity and store are there, and the handler is admitted. */
  ghost predicate Uploads(max: RL.U32, events: RL.Events, job: Job, io: RL.Io) {
    job.identity.Some? && job.hasStore && Admitted(max, events, job, io)
  }

  /** The put of a small object takes effect, and reports success. */
  predicate Lands(job: Job, rendered: bool, put: Put) {
    job.identity.Some? && job.hasStore && rendered && (put.PutOk? || put.applied)
  }

  function RefTo(job: Job, kind: Kind, rendered: bool, put: Put): Option<string> {
    if job.identity.Some? && job.hasStore && rendered && put.PutOk? then Some(KeyOf(job, kind)) else None
  }

  /** Nothing changed but possibly what lies under the key. */
  ghost predicate OnlyAt(before: map<string, Object>, after: map<string, Object>, keys: set<string>) {
    forall k :: k !in keys ==> (k in after <==> k in before) && (k in before ==> after[k] == before[k])
  }

  ghost function KeysOf(job: Job): set<string> {
    if job.identity.None? then {} else {KeyOf(job, Core), KeyOf(job, ProcSnapshot), KeyOf(job, ManifestJson)}
  }

  /** The snapshot is stored if it lands, the manifest if it lands, and nothing else changes. */
  ghost predicate SmallObjectsPut(before: map<string, Object>, after: map<string, Object>, job: Job, s: Surroundings,
                                  present: bool, skipped: Option<string>) {
    && OnlyAt(before, after, if job.identity.None? then {} else {KeyOf(job, ProcSnapshot), KeyOf(job, ManifestJson)})
    && (Lands(job, s.tarRendered, s.tarPut) ==>
          KeyOf(job, ProcSnapshot) in after && after[KeyOf(job, ProcSnapshot)] == TarObject)
    && (job.identity.Some? && !Lands(job, s.tarRendered, s.tarPut) ==>
          OnlyAt(before, after, {KeyOf(job, ManifestJson)}))
    && (Lands(job, s.jsonRendered, s.manifestPut) ==>
          && KeyOf(job, ManifestJson) in after && after[KeyOf(job, ManifestJson)].ManifestObject?
          && var m := after[KeyOf(job, ManifestJson)].manifest;
             && m.identity == job.identity && m.core.present == present && m.core.skippedReason == skipped
             && m.procSnapshot == RefTo(job, ProcSnapshot, s.tarRendered, s.tarPut))
    && (job.identity.Some? && !Lands(job, s.jsonRendered, s.manifestPut) ==>
          OnlyAt(before, after, {KeyOf(job, ProcSnapshot)}))
  }

  /** The two puts, one after the other. */
  lemma TwoPuts(before: map<string, Object>, mid: map<string, Object>, after: map<string, Object>, job: Job,
                s: Surroundings, m: Manifest)
    requires mid == if Lands(job, s.tarRendered, s.tarPut) then before[KeyOf(job, ProcSnapshot) := TarObject]
                    else before
    requires after == if Lands(job, s.jsonRendered, s.manifestPut)
                      then mid[KeyOf(job, ManifestJson) := ManifestObject(m)] else mid
    requires m.identity == job.identity && m.procSnapshot == RefTo(job, ProcSnapshot, s.tarRendered, s.tarPut)
    ensures SmallObjectsPut(before, after, job, s, m.core.present, m.core.skippedReason)
  {
    if job.identity.Some? {
      OwnKeysDiffer(TupleOf(job), ProcSnapshot, ManifestJson);
    }
  }

  /** The report of a handler whose drain succeeded. */
  ghost predicate FinishReport(p: Process, stats: Drain.CoreStats, s: Surroundings, report: Report) {
    && report.manifestKey == RefTo(p.job, ManifestJson, s.jsonRendered, s.manifestPut)
    && report.coreBytes == stats.bytes && report.truncated == stats.truncated && !report.error
    && report.storedBytes == (if stats.sha256.Some? then Some(stats.storedBytes) else None)
    && report.identity == p.job.identity
    && report.outcome == (if p.job.identity.None? then SkippedNonK8s
                          else if p.suppressed then SuppressedRateLimit
                          else if !p.job.hasStore then NoStoreDiscard
                          else if stats.sha256.Some? then Uploaded
                          else Failed)
  }

  lemma ReportIs(p: Process, stats: Drain.CoreStats, s: Surroundings)
    requires p.pc.Recorded? && p.pc.stats == stats
    requires p.pc.manifestKey == RefTo(p.job, ManifestJson, s.jsonRendered, s.manifestPut)
    ensures FinishReport(p, stats, s, SuccessReport(p))
  {
  }

  lemma RunReport(p: Process, stats: Drain.CoreStats, s: Surroundings, uploads: bool, maxCoreBytes: nat, report: Report)
    requires FinishReport(p, stats, s, report) && (uploads ==> p.job.identity.Some? && p.job.hasStore)
    requires p.suppressed == (p.job.identity.Some? && p.job.hasStore && !uploads)
    requires stats.bytes == |Drain.Stream(s.script.chunks)| && (stats.sha256.Some? <==> uploads)
    requires uploads ==> stats.storedBytes == |Drain.AllAccepted(s.script, maxCoreBytes)|
    ensures ReportOf(p.job, s, uploads, true, maxCoreBytes, report)
  {
  }

  /** The drain's object and then the two small ones. */
  lemma RunStores(before: map<string, Object>, mid: map<string, Object>, after: map<string, Object>, job: Job,
                  s: Surroundings, uploads: bool, maxCoreBytes: nat, sha: Drain.Bytes -> string)
    requires uploads ==> job.identity.Some? && job.hasStore
    requires uploads ==>
               var accepted := Drain.AllAccepted(s.script, maxCoreBytes);
               mid == before[KeyOf(job, Core) := CoreObject(sha(accepted), |accepted|)]
    requires OnlyAt(before, mid, if uploads then {KeyOf(job, Core)} else {})
    requires SmallObjectsPut(mid, after, job, s, uploads,
                             if job.identity.Some? && job.hasStore && !uploads then Some("rate_limit") else None)
    ensures OnlyAt(before, after, KeysOf(job)) && StoredFor(after, job, s, uploads, maxCoreBytes, sha)
  {
    if job.identity.Some? {
      OwnKeysDiffer(TupleOf(job), Core, ProcSnapshot);
      OwnKeysDiffer(TupleOf(job), Core, ManifestJson);
    }
  }

  /** The one report of a run. */
  ghost predicate ReportOf(job: Job, s: Surroundings, uploads: bool, ok: bool, maxCoreBytes: nat, report: Report) {
    && report.identity == job.identity && report.error == !ok
    && report.outcome == (if !ok then Failed
                          else if job.identity.None? then SkippedNonK8s
                          else if !job.hasStore then NoStoreDiscard
                          else if uploads then Uploaded
                          else SuppressedRateLimit)
    && report.manifestKey == (if ok then RefTo(job, ManifestJson, s.jsonRendered, s.manifestPut) else None)
    && report.coreBytes == (if ok then |Drain.Stream(s.script.chunks)| else 0)
    && report.storedBytes == (if ok && uploads then Some(|Drain.AllAccepted(s.script, maxCoreBytes)|) else None)
  }

  /** What the store holds after a run that did not fail, whether its core was stored, suppressed or discarded. */
  ghost predicate StoredFor(store: map<string, Object>, job: Job, s: Surroundings, uploads: bool, maxCoreBytes: nat,
                            sha: Drain.Bytes -> string)
    requires uploads ==> job.identity.Some?
  {
    && (uploads ==>
          var accepted := Drain.AllAccepted(s.script, maxCoreBytes);
          KeyOf(job, Core) in store && store[KeyOf(job, Core)] == CoreObject(sha(accepted), |accepted|))
    && (Lands(job, s.tarRendered, s.tarPut) ==>
          KeyOf(job, ProcSnapshot) in store && store[KeyOf(job, ProcSnapshot)] == TarObject)
    && (Lands(job, s.jsonRendered, s.manifestPut) ==>
          && KeyOf(job, ManifestJson) in store && store[KeyOf(job, ManifestJson)].ManifestObject?
          && var m := store[KeyOf(job, ManifestJson)].manifest;
             && m.identity == job.identity && m.core.present == uploads
             && m.core.skippedReason == (if uploads || job.identity.None? || !job.hasStore then None
                                         else Some("rate_limit"))
             && m.procSnapshot == RefTo(job, ProcSnapshot, s.tarRendered, s.tarPut))
  }

  class Node {
    const limiter: RL.RateLimiter
    var store: map<string, Object>
    var inbox: seq<Report>

    constructor (max: RL.U32)
      ensures fresh(limiter) && limiter.max == max && limiter.events == map[] && store == map[] && inbox == []
    {
      limiter := new RL.RateLimiter(max);
      store, inbox := map[], [];
    }

    method PutObject(key: string, value: Object, put: Put) returns (ok: bool)
      modifies this`store
      ensures ok == put.PutOk?
      ensures store == if put.PutOk? || put.applied then old(store)[key := value] else old(store)
    {
      if put.PutOk? || put.applied {
        store := store[key := value];
      }
      ok := put.PutOk?;
    }

    /** Drain through the backend the flags call for; a stored core lands under the core key. */
    method DrainWith(stores: bool, job: Job, s: Surroundings, maxCoreBytes: nat, sha: Drain.Bytes -> string)
      returns (r: Drain.Result<Drain.CoreStats, Drain.DrainError>)
      requires Drain.WellFormed(s.script.chunks) && (stores ==> Target(job))
      modifies this`store
      ensures var d := DrainEndOf(stores, s, maxCoreBytes, sha);
              && (r.Ok? <==> d.DrainOk?)
              && (r.Ok? ==> r.value == Drain.CoreStats(d.bytes, d.storedBytes,
                                                       if stores then Some(d.sha256) else None,
                                                       d.reason.Some?, d.reason))
              && store == if !stores then old(store)
                          else if d.DrainOk? then old(store)[KeyOf(job, Core) := CoreObject(d.sha256, d.storedBytes)]
                          else if d.leftBehind.Some? && d.leftBehind.value.CoreObject?
                          then old(store)[KeyOf(job, Core) := d.leftBehind.value]
                          else old(store)
      ensures r.Ok? <==> DrainCompletes(stores, s, maxCoreBytes)
      ensures r.Ok? ==> r.value.bytes == |Drain.Stream(s.script.chunks)| && (r.value.sha256.Some? <==> stores)
      ensures r.Ok? && stores ==>
                var accepted := Drain.AllAccepted(s.script, maxCoreBytes);
                && r.value.storedBytes == |accepted|
                && store == old(store)[KeyOf(job, Core) := CoreObject(sha(accepted), |accepted|)]
      ensures OnlyAt(old(store), store, if stores then {KeyOf(job, Core)} else {})
    {
      DataIsStream(s.script.chunks);
      if stores {
        var sink := new Drain.Sink();
        r := Drain.DrainStandalone(s.script, sink, maxCoreBytes, sha);
        if r.Ok? {
          store := store[KeyOf(job, Core) := CoreObject(sha(sink.accepted), |sink.accepted|)];
        } else if Drain.ShutdownPolled in sink.ops && s.leftBehind.Some? && s.leftBehind.value.CoreObject? {
          store := store[KeyOf(job, Core) := s.leftBehind.value];
        }
      } else {
        r := Drain.DrainDiscard(DataOf(s.script.chunks), s.script.end);
      }
    }

    ghost function Seen(p: Process): View
      reads this, limiter
    {
      View(limiter.events, store, p, inbox)
    }

    /** Consult the limiter, only when a core would upload. */
    method Consult(job: Job, io: RL.Io) returns (suppressed: bool, rateRecorded: bool)
      modifies limiter
      ensures Seen(Consulted(job, suppressed, rateRecorded, io))
           == Move(limiter.max, old(Seen(Idle(job))), Alive(io, DrainErr(None), false, PutOk))
      ensures rateRecorded <==> Uploads(limiter.max, old(limiter.events), job, io)
      ensures suppressed <==> job.identity.Some? && job.hasStore && !rateRecorded
    {
      suppressed, rateRecorded := false, false;
      if Target(job) {
        var decision := limiter.CheckAndRecord(job.identity.value.podUid, job.timestamp, io);
        match decision
        case Suppressed(_) => suppressed := true;
        case Allowed => rateRecorded := true;
      }
      assert old(inbox) + [] == inbox;
    }

    /** Give the slot back if one was recorded. */
    method GiveBack(p: Process, io: RL.Io, rendered: bool, put: Put) returns (handled: Process)
      requires p.pc == DrainFailed && !p.refunded
      modifies limiter
      ensures handled.pc == FailureHandled && FailureReport(handled) == FailureReport(p)
      ensures Seen(handled) == Move(limiter.max, old(Seen(p)), Alive(io, DrainErr(None), rendered, put))
    {
      var refund := p.rateRecorded && Target(p.job);
      if refund {
        limiter.Refund(p.job.identity.value.podUid, p.job.timestamp, io);
      }
      handled := p.(refunded := refund, pc := FailureHandled);
      assert inbox + [] == inbox;
    }

    /** A failed drain gives its slot back, then reports. */
    method Fail(p: Process, s: Surroundings)
      requires p.pc == DrainFailed && !p.refunded
      modifies limiter, this`inbox
      ensures var v := Rest(limiter.max, old(Seen(p)), s);
              v == Seen(v.proc) && v.proc.pc.Done? && v.proc.pc.built.None?
      ensures inbox == old(inbox) + [Report(p.job.identity, Failed, None, 0, None, false, true)]
    {
      var handled := GiveBack(p, s.refundIo, s.tarRendered, s.tarPut);
      ghost var v3 := Seen(handled);
      inbox := inbox + [FailureReport(p)];
      ghost var v4 := Move(limiter.max, v3, Alive(RL.IoOk, DrainErr(None), s.jsonRendered, s.manifestPut));
      assert v4 == Seen(handled.(pc := Done(FailureReport(p), None)));
      assert inbox + [] == inbox;
    }

    method UploadSnapshot(p: Process, stats: Drain.CoreStats, io: RL.Io, rendered: bool, put: Put)
      returns (procRef: Option<string>)
      requires p.pc == Drained(stats)
      modifies this`store
      ensures Seen(p.(pc := Snapshotted(stats, procRef)))
           == Move(limiter.max, old(Seen(p)), Alive(io, DrainErr(None), rendered, put))
      ensures procRef == RefTo(p.job, ProcSnapshot, rendered, put)
      ensures store == if Lands(p.job, rendered, put) then old(store)[KeyOf(p.job, ProcSnapshot) := TarObject]
                       else old(store)
    {
      procRef := None;
      if Target(p.job) && rendered {
        var key := KeyOf(p.job, ProcSnapshot);
        var stored := PutObject(key, TarObject, put);
        if stored {
          procRef := Some(key);
        }
      }
      assert inbox + [] == inbox;
    }

    method WriteManifest(p: Process, stats: Drain.CoreStats, procRef: Option<string>, rendered: bool, put: Put)
      returns (manifest: Manifest, manifestKey: Option<string>)
      requires p.pc == Snapshotted(stats, procRef)
      modifies this`store
      ensures Seen(p.(pc := Recorded(stats, manifest, manifestKey)))
           == Move(limiter.max, old(Seen(p)), Alive(RL.IoOk, DrainErr(None), rendered, put))
      ensures manifestKey == RefTo(p.job, ManifestJson, rendered, put)
      ensures store == if Lands(p.job, rendered, put)
                       then old(store)[KeyOf(p.job, ManifestJson) := ManifestObject(manifest)] else old(store)
      ensures manifest.identity == p.job.identity && manifest.procSnapshot == procRef
      ensures manifest.core == CoreRef(stats.sha256.Some?,
                                       if stats.sha256.Some? && p.job.identity.Some? then Some(KeyOf(p.job, Core))
                                       else None,
                                       stats.sha256,
                                       if stats.sha256.Some? then Some(stats.bytes) else None,
                                       if stats.sha256.Some? then Some(stats.storedBytes) else None,
                                       stats.truncated, stats.truncatedReason,
                                       if p.suppressed then Some("rate_limit") else None)
    {
      manifest := BuildManifest(p, stats, procRef);
      manifestKey := None;
      if Target(p.job) && rendered {
        var key := KeyOf(p.job, ManifestJson);
        var stored := PutObject(key, ManifestObject(manifest), put);
        if stored {
          manifestKey := Some(key);
        }
      }
      assert inbox + [] == inbox;
    }

    method DrainStage(p: Process, s: Surroundings, maxCoreBytes: nat, sha: Drain.Bytes -> string)
      returns (r: Drain.Result<Drain.CoreStats, Drain.DrainError>)
      requires p.pc == Draining && Drain.WellFormed(s.script.chunks)
      modifies this`store
      ensures Seen(p.(pc := if r.Ok? then Drained(r.value) else DrainFailed))
           == Move(limiter.max, old(Seen(p)), Alive(RL.IoOk, DrainEndOf(Stores(p), s, maxCoreBytes, sha), false, PutOk))
      ensures var stores := p.job.identity.Some? && p.job.hasStore && !p.suppressed;
              && (r.Ok? <==> DrainCompletes(stores, s, maxCoreBytes))
              && (r.Ok? ==> r.value.bytes == |Drain.Stream(s.script.chunks)| && (r.value.sha256.Some? <==> stores))
              && (r.Ok? && stores ==>
                    var accepted := Drain.AllAccepted(s.script, maxCoreBytes);
                    && r.value.storedBytes == |accepted|
                    && store == old(store)[KeyOf(p.job, Core) := CoreObject(sha(accepted), |accepted|)])
              && OnlyAt(old(store), store, if stores then {KeyOf(p.job, Core)} else {})
    {
      r := DrainWith(Target(p.job) && !p.suppressed, p.job, s, maxCoreBytes, sha);
      assert inbox + [] == inbox;
    }

    /** The last step: report. */
    method Send(p: Process)
      requires p.pc.Recorded?
      modifies this`inbox
      ensures inbox == old(inbox) + [SuccessReport(p)]
      ensures var v := Move(limiter.max, old(Seen(p)), Alive(RL.IoOk, DrainErr(None), false, PutOk));
              v == Seen(v.proc) && v.proc.pc.Done? && v.proc.pc.built.Some?
    {
      SuccessMove(limiter.max, Seen(p));
      inbox := inbox + [SuccessReport(p)];
    }

    /** Snapshot, manifest, report. */
    method Finish(p: Process, stats: Drain.CoreStats, s: Surroundings)
      requires p.pc == Drained(stats)
      modifies this
      ensures var v := Rest(limiter.max, old(Seen(p)), s);
              v == Seen(v.proc) && v.proc.pc.Done? && v.proc.pc.built.Some?
      ensures SmallObjectsPut(old(store), store, p.job, s, stats.sha256.Some?,
                              if p.suppressed then Some("rate_limit") else None)
      ensures |inbox| == |old(inbox)| + 1 && inbox[..|old(inbox)|] == old(inbox)
      ensures FinishReport(p, stats, s, inbox[|old(inbox)|])
    {
      var procRef := UploadSnapshot(p, stats, s.refundIo, s.tarRendered, s.tarPut);
      ghost var mid := store;
      var p3 := p.(pc := Snapshotted(stats, procRef));
      var manifest, manifestKey := WriteManifest(p3, stats, procRef, s.jsonRendered, s.manifestPut);
      TwoPuts(old(store), mid, store, p.job, s, manifest);
      var p4 := p.(pc := Recorded(stats, manifest, manifestKey));
      Send(p4);
      ReportIs(p4, stats, s);
    }

    /** Refund and report, or finish. */
    method AfterDrain(p: Process, drained: Drain.Result<Drain.CoreStats, Drain.DrainError>, s: Surroundings,
                      ghost maxCoreBytes: nat) returns (ok: bool)
      requires p.pc == Draining && !p.refunded && (p.suppressed ==> p.job.identity.Some? && p.job.hasStore)
      requires drained.Ok? ==>
                 var uploads := p.job.identity.Some? && p.job.hasStore && !p.suppressed;
                 && drained.value.bytes == |Drain.Stream(s.script.chunks)| && (drained.value.sha256.Some? <==> uploads)
                 && (uploads ==> drained.value.storedBytes == |Drain.AllAccepted(s.script, maxCoreBytes)|)
      modifies this, limiter
      ensures ok == drained.Ok?
      ensures var v2 := old(Seen(p.(pc := if drained.Ok? then Drained(drained.value) else DrainFailed)));
              var v := Rest(limiter.max, v2, s);
              v == Seen(v.proc) && v.proc.pc.Done? && ok == v.proc.pc.built.Some?
      ensures |inbox| == |old(inbox)| + 1 && inbox[..|old(inbox)|] == old(inbox)
      ensures var uploads := p.job.identity.Some? && p.job.hasStore && !p.suppressed;
              ReportOf(p.job, s, uploads, ok, maxCoreBytes, inbox[|old(inbox)|])
      ensures if ok then SmallObjectsPut(old(store), store, p.job, s, drained.value.sha256.Some?,
                                         if p.suppressed then Some("rate_limit") else None)
              else store == old(store)
    {
      match drained
      case Err(_) =>
        Fail(p.(pc := DrainFailed), s);
        ok := false;
      case Ok(stats) =>
        Finish(p.(pc := Drained(stats)), stats, s);
        ghost var uploads := p.job.identity.Some? && p.job.hasStore && !p.suppressed;
        RunReport(p.(pc := Drained(stats)), stats, s, uploads, maxCoreBytes, inbox[|old(inbox)|]);
        ok := true;
    }

    /** The whole pipeline has the effect of the step machine run alone, and fails only with the drain. */
    method Run(job: Job, s: Surroundings, maxCoreBytes: nat, sha: Drain.Bytes -> string) returns (ok: bool)
      requires Drain.WellFormed(s.script.chunks)
      modifies this, limiter
      ensures var v := Alone(limiter.max, old(Seen(Idle(job))), s, maxCoreBytes, sha);
              v == Seen(v.proc) && v.proc.pc.Done? && ok == v.proc.pc.built.Some?
      ensures var uploads := Uploads(limiter.max, old(limiter.events), job, s.checkIo);
              && ok == DrainCompletes(uploads, s, maxCoreBytes)
              && |inbox| == |old(inbox)| + 1 && inbox[..|old(inbox)|] == old(inbox)
              && ReportOf(job, s, uploads, ok, maxCoreBytes, inbox[|old(inbox)|])
              && OnlyAt(old(store), store, KeysOf(job))
              && (ok ==> StoredFor(store, job, s, uploads, maxCoreBytes, sha))
    {
      ghost var uploads := Uploads(limiter.max, limiter.events, job, s.checkIo);
      var suppressed, rateRecorded := Consult(job, s.checkIo);
      var p := Consulted(job, suppressed, rateRecorded, s.checkIo);
      var drained := DrainStage(p, s, maxCoreBytes, sha);
      ghost var mid := store;
      ok := AfterDrain(p, drained, s, maxCoreBytes);
      if ok {
        RunStores(old(store), mid, store, job, s, uploads, maxCoreBytes, sha);
      }
    }
  }

  /** The last step only sends. */
  lemma SuccessMove(max: RL.U32, v: View)
    requires v.proc.pc.Recorded?
    ensures Move(max, v, Alive(RL.IoOk, DrainErr(None), false, PutOk))
         == View(v.events, v.store, v.proc.(pc := Done(SuccessReport(v.proc), Some(v.proc.pc.manifest))),
                 v.sent + [SuccessReport(v.proc)])
  {
  }
}
