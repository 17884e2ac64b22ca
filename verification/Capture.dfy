/**
 The capture handler: consult the limiter, drain the core, refund on failure, upload the snapshot,
 write the manifest, report. Handlers are processes that share the limiter state, the object store
 and the daemon's socket; each stage is one atomic step, and a process may be killed between any two.
 */
module Capture {
  import opened Text
  import opened Keys
  import Drain
  import RL = RateLimit
  import LR = LimiterRuns

  datatype Identity = Identity(podUid: string, containerId: string)

  datatype Outcome = Uploaded | SuppressedRateLimit | SkippedNonK8s | NoStoreDiscard | Failed

  datatype CoreRef = CoreRef(
    present: bool,
    objectKey: Option<string>,
    sha256: Option<string>,
    sizeBytes: Option<nat>,
    storedBytes: Option<nat>,
    truncated: bool,
    truncatedReason: Option<Drain.TruncatedReason>,
    skippedReason: Option<string>)

  datatype Manifest = Manifest(identity: Option<Identity>, core: CoreRef, procSnapshot: Option<string>)

  datatype Object = CoreObject(sha256: string, size: nat) | TarObject | ManifestObject(manifest: Manifest)

  datatype Report = Report(
    identity: Option<Identity>,
    outcome: Outcome,
    manifestKey: Option<string>,
    coreBytes: nat,
    storedBytes: Option<nat>,
    truncated: bool,
    error: bool)

  /** What a handler is started with: the kernel's arguments, the cgroup identity, the config. */
  datatype Job = Job(cluster: string, timestamp: int, hostPid: int, identity: Option<Identity>, hasStore: bool)

  datatype Pc =
    | Start
    | Draining
    | DrainFailed
    | FailureHandled
    | Drained(stats: Drain.CoreStats)
    | Snapshotted(stats: Drain.CoreStats, procRef: Option<string>)
    | Recorded(stats: Drain.CoreStats, manifest: Manifest, manifestKey: Option<string>)
    | Done(report: Report, built: Option<Manifest>)
    | Killed(at: Pc)

  /**
   A handler process: its job, its local flags, and where it is. `refunded`, `failedOpen` (its check
   was answered without the state file) and the stage inside `Killed` are auxiliary: no step reads them.
   */
  datatype Process = Process(job: Job, suppressed: bool, rateRecorded: bool, refunded: bool, failedOpen: bool, pc: Pc)

  datatype World = World(
    max: RL.U32,
    events: RL.Events,
    /** Every limiter call made so far; auxiliary, read by no step. */
    calls: seq<LR.Call>,
    store: map<string, Object>,
    /** What the daemon was sent, with the index of the sending process. */
    inbox: seq<(nat, Report)>,
    procs: seq<Process>)

  /** A store request: a failed one may or may not have taken effect. */
  datatype Put = PutOk | PutErr(applied: bool)

  datatype DrainEnd =
    | DrainOk(bytes: nat, storedBytes: nat, sha256: string, reason: Option<Drain.TruncatedReason>)
    | DrainErr(leftBehind: Option<Object>)

  /** Everything the environment decides about one step. */
  datatype Env = Env(kill: bool, io: RL.Io, drain: DrainEnd, rendered: bool, put: Put)

  // ----- derived values -----

  /** The handler may write to the store: it knows whose crash this is, and where to put it. */
  predicate Target(job: Job) {
    job.identity.Some? && job.hasStore
  }

  function TupleOf(job: Job): Tuple
    requires job.identity.Some?
  {
    Tuple(job.cluster, job.identity.value.podUid, job.identity.value.containerId, job.timestamp, job.hostPid)
  }

  function KeyOf(job: Job, kind: Kind): string
    requires job.identity.Some?
  {
    Key(TupleOf(job), kind)
  }

  /** Which backend drains: the store's, or the discarding one. */
  predicate Stores(p: Process) {
    Target(p.job) && !p.suppressed
  }

  function StatsOf(p: Process, d: DrainEnd): Drain.CoreStats
    requires d.DrainOk?
  {
    if Stores(p) then Drain.CoreStats(d.bytes, d.storedBytes, Some(d.sha256), d.reason.Some?, d.reason)
    else
      var reason := if d.reason == Some(Drain.StreamError) then d.reason else None;
      Drain.CoreStats(d.bytes, 0, None, reason.Some?, reason)
  }

  function BuildManifest(p: Process, stats: Drain.CoreStats, procRef: Option<string>): Manifest {
    var uploaded := stats.sha256.Some?;
    Manifest(
      p.job.identity,
      CoreRef(
        uploaded,
        if uploaded && p.job.identity.Some? then Some(KeyOf(p.job, Core)) else None,
        stats.sha256,
        if uploaded then Some(stats.bytes) else None,
        if uploaded then Some(stats.storedBytes) else None,
        stats.truncated,
        stats.truncatedReason,
        if p.suppressed then Some("rate_limit") else None),
      procRef)
  }

  function OutcomeOf(p: Process, stats: Drain.CoreStats): Outcome {
    if p.job.identity.None? then SkippedNonK8s
    else if p.suppressed then SuppressedRateLimit
    else if !p.job.hasStore then NoStoreDiscard
    else if stats.sha256.Some? then Uploaded
    else Failed
  }

  function FailureReport(p: Process): Report {
    Report(p.job.identity, Failed, None, 0, None, false, true)
  }

  function SuccessReport(p: Process): Report
    requires p.pc.Recorded?
  {
    var stats := p.pc.stats;
    Report(p.job.identity, OutcomeOf(p, stats), p.pc.manifestKey, stats.bytes,
           if stats.sha256.Some? then Some(stats.storedBytes) else None, stats.truncated, false)
  }

  // ----- one step: what the process becomes, and its effect on each shared resource -----

  predicate Halted(pc: Pc) {
    pc.Done? || pc.Killed?
  }

  /** The process after its next step. `allowed` is the limiter's answer, if it was consulted. */
  function Next(p: Process, allowed: bool, env: Env): Process {
    if Halted(p.pc) then p
    else if env.kill then p.(pc := Killed(p.pc))
    else match p.pc
      case Start =>
        if Target(p.job)
        then p.(suppressed := !allowed, rateRecorded := allowed, failedOpen := allowed && env.io != RL.IoOk,
                pc := Draining)
        else p.(pc := Draining)
      case Draining => p.(pc := if env.drain.DrainOk? then Drained(StatsOf(p, env.drain)) else DrainFailed)
      case DrainFailed => p.(refunded := p.rateRecorded && Target(p.job), pc := FailureHandled)
      case FailureHandled => p.(pc := Done(FailureReport(p), None))
      case Drained(stats) =>
        p.(pc := Snapshotted(stats, if Target(p.job) && env.rendered && env.put.PutOk?
                                    then Some(KeyOf(p.job, ProcSnapshot)) else None))
      case Snapshotted(stats, procRef) =>
        p.(pc := Recorded(stats, BuildManifest(p, stats, procRef),
                          if Target(p.job) && env.rendered && env.put.PutOk?
                          then Some(KeyOf(p.job, ManifestJson)) else None))
      case Recorded(_, manifest, _) => p.(pc := Done(SuccessReport(p), Some(manifest)))
      case _ => p
  }

  /** The limiter call the step makes: a check before the drain, a refund after a failed one. */
  function LimiterCall(p: Process, env: Env): Option<LR.Call> {
    if Halted(p.pc) || env.kill || !Target(p.job) then None
    else if p.pc.Start? then Some(LR.Check(p.job.identity.value.podUid, p.job.timestamp, env.io))
    else if p.pc.DrainFailed? && p.rateRecorded
    then Some(LR.Refund(p.job.identity.value.podUid, p.job.timestamp, env.io))
    else None
  }

  /** The object the step leaves in the store, in the blob-first order core, snapshot, manifest. */
  function StoreWrite(p: Process, env: Env): Option<(Kind, Object)> {
    if Halted(p.pc) || env.kill || !Target(p.job) then None
    else match p.pc
      case Draining =>
        if p.suppressed then None
        else (match env.drain
              case DrainOk(_, stored, sha256, _) => Some((Core, CoreObject(sha256, stored)))
              // A deadline while finalizing leaves the outcome in the store unknown.
              case DrainErr(Some(CoreObject(sha256, size))) => Some((Core, CoreObject(sha256, size)))
              case _ => None)
      case Drained(_) =>
        if env.rendered && (env.put.PutOk? || env.put.applied) then Some((ProcSnapshot, TarObject)) else None
      case Snapshotted(stats, procRef) =>
        if env.rendered && (env.put.PutOk? || env.put.applied)
        then Some((ManifestJson, ManifestObject(BuildManifest(p, stats, procRef)))) else None
      case _ => None
  }

  /** The datagram the step sends to the daemon. */
  function Sent(p: Process, env: Env): Option<Report> {
    if Halted(p.pc) || env.kill then None
    else if p.pc.FailureHandled? then Some(FailureReport(p))
    else if p.pc.Recorded? then Some(SuccessReport(p))
    else None
  }

  /** Fail-open: with any IO error the answer is yes. */
  predicate Answer(w: World, call: LR.Call) {
    call.Check? && call.io == RL.IoOk ==> RL.Decide(w.events, w.max, call.pod, call.now).Allowed?
  }

  /** Process `i` takes its next step; a finished or killed process takes none. */
  function Step(w: World, i: nat, env: Env): World
    requires i < |w.procs|
  {
    var p := w.procs[i];
    var call, write, sent := LimiterCall(p, env), StoreWrite(p, env), Sent(p, env);
    World(
      w.max,
      if call.Some? then LR.Apply(w.events, w.max, call.value) else w.events,
      if call.Some? then w.calls + [call.value] else w.calls,
      if write.Some? then w.store[KeyOf(p.job, write.value.0) := write.value.1] else w.store,
      if sent.Some? then w.inbox + [(i, sent.value)] else w.inbox,
      w.procs[i := Next(p, call.Some? && Answer(w, call.value), env)])
  }

  function Idle(job: Job): Process {
    Process(job, false, false, false, false, Start)
  }

  function Initial(max: RL.U32, jobs: seq<Job>): World {
    World(max, map[], [], map[], [], seq(|jobs|, i requires 0 <= i < |jobs| => Idle(jobs[i])))
  }

  /** An interleaving: which process moves next, and what the environment does to it. */
  type Schedule = seq<(nat, Env)>

  /** Entries that name no process are skipped. */
  function Exec(w: World, schedule: Schedule): World {
    if schedule == [] then w
    else
      var before := Exec(w, schedule[..|schedule| - 1]);
      var (i, env) := schedule[|schedule| - 1];
      if i < |before.procs| then Step(before, i, env) else before
  }
}
