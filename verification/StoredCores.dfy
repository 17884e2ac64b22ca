/** How many cores of one pod end up in the object store. */
module StoredCores {
  import opened Text
  import opened Keys
  import opened Capture
  import opened CaptureRuns
  import opened BlobFirst
  import RL = RateLimit
  import LR = LimiterRuns

  // ----- whose cores are in the store -----

  predicate CoreStored(store: map<string, Object>, p: Process) {
    p.job.identity.Some? && KeyOf(p.job, Core) in store && store[KeyOf(p.job, Core)].CoreObject?
  }

  predicate AfterDrain(pc: Pc) {
    HasStats(pc) || pc.Done? || (pc.Killed? && AfterDrain(pc.at))
  }

  /** Only an admitted handler's core is in the store, and it is there once the handler has drained it. */
  ghost predicate CoreTrue(store: map<string, Object>, p: Process) {
    && (CoreStored(store, p) ==> p.rateRecorded)
    && (AfterDrain(p.pc) && HoldsAt(p, p.pc) ==> CoreStored(store, p))
  }

  predicate Owns(p: Process, key: string) {
    p.job.identity.Some? && key == KeyOf(p.job, Core)
  }

  ghost predicate Owned(procs: seq<Process>, key: string) {
    exists j :: 0 <= j < |procs| && Owns(procs[j], key)
  }

  ghost predicate CoresTrue(w: World) {
    && DistinctTuples(w.procs)
    && (forall j :: 0 <= j < |w.procs| ==> CoreTrue(w.store, w.procs[j]))
    && (forall k :: k in w.store && w.store[k].CoreObject? ==> Owned(w.procs, k))
  }

  /** The job's other objects have other keys. */
  predicate CoreKeyApart(job: Job) {
    Target(job) ==> KeyOf(job, Core) !in {KeyOf(job, ProcSnapshot), KeyOf(job, ManifestJson)}
  }

  lemma NextCoreTrue(store: map<string, Object>, p: Process, allowed: bool, env: Env)
    requires FlagsAgree(p) && CoreTrue(store, p)
    requires CoreKeyApart(p.job)
    ensures CoreTrue(StoreAfter(store, p, env), Next(p, allowed, env))
  {
    NextFlags(p, allowed, env);
    if p.pc.Draining? {
      DrainCoreTrue(store, p, allowed, env);
    } else {
      OtherCoreTrue(store, p, allowed, env);
    }
  }

  lemma DrainCoreTrue(store: map<string, Object>, p: Process, allowed: bool, env: Env)
    requires FlagsAgree(p) && CoreTrue(store, p) && p.pc.Draining?
    ensures CoreTrue(StoreAfter(store, p, env), Next(p, allowed, env))
  {
  }

  /** The other steps leave the process's core as it is, and whether it counts. */
  lemma OtherCoreTrue(store: map<string, Object>, p: Process, allowed: bool, env: Env)
    requires FlagsAgree(p) && CoreTrue(store, p) && !p.pc.Draining? && FlagsAgree(Next(p, allowed, env))
    requires CoreKeyApart(p.job)
    ensures CoreTrue(StoreAfter(store, p, env), Next(p, allowed, env))
  {
    OtherStepsKeepCore(store, p, env);
  }

  /** Another process's write does not touch this one's core. */
  lemma OthersCore(procs: seq<Process>, i: nat, j: nat, store: map<string, Object>, env: Env)
    requires DistinctTuples(procs) && i < |procs| && j < |procs| && i != j
    ensures CoreStored(StoreAfter(store, procs[i], env), procs[j]) == CoreStored(store, procs[j])
  {
    var write := StoreWrite(procs[i], env);
    if write.Some? && procs[j].job.identity.Some? {
      OthersKeysDiffer(procs, i, j, write.value.0, Core);
    }
  }

  lemma OwnCore(w: World, i: nat, env: Env)
    requires CoresTrue(w) && i < |w.procs| && FlagsAgree(w.procs[i])
    ensures CoreTrue(Step(w, i, env).store, Step(w, i, env).procs[i])
  {
    var p, call := w.procs[i], LimiterCall(w.procs[i], env);
    if Target(p.job) {
      OthersKeysDiffer(w.procs, i, i, Core, ProcSnapshot);
      OthersKeysDiffer(w.procs, i, i, Core, ManifestJson);
    }
    NextCoreTrue(w.store, p, call.Some? && Answer(w, call.value), env);
  }

  /** Core objects are written under core keys only. */
  lemma CoreWrite(p: Process, env: Env)
    ensures var write := StoreWrite(p, env);
            write.Some? && write.value.1.CoreObject? ==> p.job.identity.Some? && write.value.0 == Core
  {
  }

  lemma NewCoreIsOwned(w: World, i: nat, env: Env, k: string)
    requires i < |w.procs| && !(k in w.store && w.store[k].CoreObject?)
    requires k in Step(w, i, env).store && Step(w, i, env).store[k].CoreObject?
    ensures Owns(w.procs[i], k)
  {
    CoreWrite(w.procs[i], env);
  }

  lemma CoresStayOwned(w: World, i: nat, env: Env, k: string)
    requires CoresTrue(w) && i < |w.procs|
    requires k in Step(w, i, env).store && Step(w, i, env).store[k].CoreObject?
    ensures Owned(Step(w, i, env).procs, k)
  {
    var procs' := Step(w, i, env).procs;
    JobsStay(w, i, env);
    if k in w.store && w.store[k].CoreObject? {
      assert Owned(w.procs, k);
      var j :| 0 <= j < |w.procs| && Owns(w.procs[j], k);
      assert Owns(procs'[j], k);
    } else {
      NewCoreIsOwned(w, i, env, k);
      assert Owns(procs'[i], k);
    }
  }

  lemma StepKeepsCores(w: World, i: nat, env: Env)
    requires CoresTrue(w) && i < |w.procs| && FlagsAgree(w.procs[i])
    ensures CoresTrue(Step(w, i, env))
  {
    var w' := Step(w, i, env);
    assert w'.procs[i].job == w.procs[i].job;
    forall j | 0 <= j < |w.procs|
      ensures CoreTrue(w'.store, w'.procs[j])
    {
      assert CoreTrue(w.store, w.procs[j]);
      if i == j {
        OwnCore(w, i, env);
      } else {
        OthersCore(w.procs, i, j, w.store, env);
      }
    }
    forall k | k in w'.store && w'.store[k].CoreObject?
      ensures Owned(w'.procs, k)
    {
      CoresStayOwned(w, i, env, k);
    }
  }

  /**
   In every run: each core object in the store lies under the core key of a handler that was admitted,
   and the core of every handler that reported `Uploaded` is there to stay.
   */
  lemma {:induction false} CoresBelongToAdmitted(max: RL.U32, jobs: seq<Job>, schedule: Schedule)
    requires DistinctTuples(Initial(max, jobs).procs)
    ensures CoresTrue(Exec(Initial(max, jobs), schedule))
    decreases |schedule|
  {
    if schedule != [] {
      var n := |schedule| - 1;
      CoresBelongToAdmitted(max, jobs, schedule[..n]);
      ReportsAreTrue(max, jobs, schedule[..n]);
      var before := Exec(Initial(max, jobs), schedule[..n]);
      var (i, env) := schedule[n];
      if i < |before.procs| {
        assert HonestProcess(before.procs[i]);
        StepKeepsCores(before, i, env);
      }
    }
  }

  // ----- counting a pod's cores -----

  predicate InWindow(p: Process, pod: RL.Pod, lo: int, hi: int) {
    OfPod(p.job, pod) && lo <= p.job.timestamp < hi
  }

  /** The core keys of the pod's crashes within `lo..hi`. */
  function CoreKeys(procs: seq<Process>, pod: RL.Pod, lo: int, hi: int): set<string> {
    if procs == [] then {}
    else
      var p := procs[|procs| - 1];
      CoreKeys(procs[..|procs| - 1], pod, lo, hi) + if InWindow(p, pod, lo, hi) then {KeyOf(p.job, Core)} else {}
  }

  /** Those of them under which the store holds a core. */
  function PodCores(store: map<string, Object>, procs: seq<Process>, pod: RL.Pod, lo: int, hi: int): set<string> {
    set k | k in CoreKeys(procs, pod, lo, hi) && k in store && store[k].CoreObject?
  }

  /** Of these handlers, how many have a core in the store and still count against the budget. */
  function Kept(store: map<string, Object>, procs: seq<Process>, pod: RL.Pod, lo: int, hi: int): nat {
    if procs == [] then 0
    else
      var p := procs[|procs| - 1];
      Kept(store, procs[..|procs| - 1], pod, lo, hi)
      + if CoreStored(store, p) && InWindow(p, pod, lo, hi) && !p.refunded then 1 else 0
  }

  /** And how many have a core in the store although their slot was refunded. */
  function LeftBehind(store: map<string, Object>, procs: seq<Process>, pod: RL.Pod, lo: int, hi: int): nat {
    if procs == [] then 0
    else
      var p := procs[|procs| - 1];
      LeftBehind(store, procs[..|procs| - 1], pod, lo, hi)
      + if CoreStored(store, p) && InWindow(p, pod, lo, hi) && p.refunded then 1 else 0
  }

  lemma {:induction false} NotACoreKey(procs: seq<Process>, key: string, pod: RL.Pod, lo: int, hi: int)
    requires forall j :: 0 <= j < |procs| && procs[j].job.identity.Some? ==> key != KeyOf(procs[j].job, Core)
    ensures key !in CoreKeys(procs, pod, lo, hi)
    decreases |procs|
  {
    if procs != [] {
      NotACoreKey(procs[..|procs| - 1], key, pod, lo, hi);
    }
  }

  lemma LastKeyIsNew(procs: seq<Process>, pod: RL.Pod, lo: int, hi: int)
    requires procs != [] && DistinctTuples(procs) && procs[|procs| - 1].job.identity.Some?
    ensures KeyOf(procs[|procs| - 1].job, Core) !in CoreKeys(procs[..|procs| - 1], pod, lo, hi)
  {
    var n := |procs| - 1;
    var init, key := procs[..n], KeyOf(procs[n].job, Core);
    forall j | 0 <= j < |init| && init[j].job.identity.Some?
      ensures key != KeyOf(init[j].job, Core)
    {
      OthersKeysDiffer(procs, n, j, Core, Core);
    }
    NotACoreKey(init, key, pod, lo, hi);
  }

  lemma LastCore(store: map<string, Object>, procs: seq<Process>, pod: RL.Pod, lo: int, hi: int)
    requires procs != [] && DistinctTuples(procs)
    ensures var before, all := PodCores(store, procs[..|procs| - 1], pod, lo, hi), PodCores(store, procs, pod, lo, hi);
            var p := procs[|procs| - 1];
            if CoreStored(store, p) && InWindow(p, pod, lo, hi)
            then KeyOf(p.job, Core) !in before && all == before + {KeyOf(p.job, Core)}
            else all == before
  {
    if procs[|procs| - 1].job.identity.Some? {
      LastKeyIsNew(procs, pod, lo, hi);
    }
  }

  /** The pod's cores in the store are those kept and those left behind, and no others. */
  lemma {:induction false} CoresCounted(store: map<string, Object>, procs: seq<Process>, pod: RL.Pod, lo: int, hi: int)
    requires DistinctTuples(procs)
    ensures |PodCores(store, procs, pod, lo, hi)|
         == Kept(store, procs, pod, lo, hi) + LeftBehind(store, procs, pod, lo, hi)
    decreases |procs|
  {
    if procs == [] {
      assert PodCores(store, procs, pod, lo, hi) == {};
    } else {
      CoresCounted(store, procs[..|procs| - 1], pod, lo, hi);
      LastCore(store, procs, pod, lo, hi);
    }
  }

  // ----- the promise to the bucket -----

  lemma {:induction false} CountIsDifference(times: seq<int>, lo: int, hi: int)
    requires lo <= hi
    ensures LR.CountIn(times, lo, hi) + |RL.After(times, hi - 1)| == |RL.After(times, lo - 1)|
  {
    if times != [] {
      CountIsDifference(times[..|times| - 1], lo, hi);
    }
  }

  lemma {:induction false} EmptyWindowCountsNone(times: seq<int>, lo: int, hi: int)
    requires hi <= lo
    ensures LR.CountIn(times, lo, hi) == 0
  {
    if times != [] {
      EmptyWindowCountsNone(times[..|times| - 1], lo, hi);
    }
  }

  lemma SameMultisetSameCount(a: seq<int>, b: seq<int>, lo: int, hi: int)
    requires multiset(a) == multiset(b)
    ensures LR.CountIn(a, lo, hi) == LR.CountIn(b, lo, hi)
  {
    if lo <= hi {
      CountIsDifference(a, lo, hi);
      CountIsDifference(b, lo, hi);
      SameMultisetSameWindow(a, b, lo - 1);
      SameMultisetSameWindow(a, b, hi - 1);
    } else {
      EmptyWindowCountsNone(a, lo, hi);
      EmptyWindowCountsNone(b, lo, hi);
    }
  }

  lemma CountInAppend(times: seq<int>, slot: seq<int>, lo: int, hi: int)
    requires |slot| <= 1
    ensures LR.CountIn(times + slot, lo, hi)
         == LR.CountIn(times, lo, hi) + if |slot| == 1 && lo <= slot[0] < hi then 1 else 0
  {
    if slot == [] {
      assert times + slot == times;
    } else {
      assert (times + slot)[..|times|] == times;
    }
  }

  lemma HeldLast(procs: seq<Process>, pod: RL.Pod)
    requires procs != []
    ensures Held(procs, pod) == Held(procs[..|procs| - 1], pod) + Slot(procs[|procs| - 1], pod)
  {
    var n := |procs| - 1;
    assert Slots(procs, pod)[..n] == Slots(procs[..n], pod);
  }

  lemma {:induction false} KeptHoldSlots(store: map<string, Object>, procs: seq<Process>, pod: RL.Pod, lo: int, hi: int)
    requires forall j :: 0 <= j < |procs| ==> FlagsAgree(procs[j]) && CoreTrue(store, procs[j])
    ensures Kept(store, procs, pod, lo, hi) <= LR.CountIn(Held(procs, pod), lo, hi)
    decreases |procs|
  {
    if procs != [] {
      var n := |procs| - 1;
      KeptHoldSlots(store, procs[..n], pod, lo, hi);
      HeldLast(procs, pod);
      CountInAppend(Held(procs[..n], pod), Slot(procs[n], pod), lo, hi);
      assert FlagsAgree(procs[n]) && CoreTrue(store, procs[n]);
    }
  }

  lemma KeptWithinHistory(w: World, pod: RL.Pod, lo: int, hi: int)
    requires Balanced(w) && CoresTrue(w)
    ensures Kept(w.store, w.procs, pod, lo, hi) <= LR.CountIn(LR.History(w.max, w.calls, pod), lo, hi)
  {
    KeptHoldSlots(w.store, w.procs, pod, lo, hi);
    SameMultisetSameCount(LR.History(w.max, w.calls, pod), Held(w.procs, pod), lo, hi);
  }

  // ----- runs in which no failed drain leaves a core behind -----

  /** The step is a drain of the pod that fails although its core landed in the store. */
  predicate LeavesCore(w: World, entry: (nat, Env), pod: RL.Pod) {
    var (i, env) := entry;
    && i < |w.procs| && OfPod(w.procs[i].job, pod) && w.procs[i].pc.Draining? && Stores(w.procs[i]) && !env.kill
    && env.drain.DrainErr? && env.drain.leftBehind.Some? && env.drain.leftBehind.value.CoreObject?
  }

  ghost predicate DrainsLeaveNothing(max: RL.U32, jobs: seq<Job>, schedule: Schedule, pod: RL.Pod) {
    forall k :: 0 <= k < |schedule| ==> !LeavesCore(Exec(Initial(max, jobs), schedule[..k]), schedule[k], pod)
  }

  predicate NotDrained(pc: Pc) {
    pc.Start? || pc.Draining? || pc.DrainFailed? || (pc.Killed? && NotDrained(pc.at))
  }

  predicate FailedAt(pc: Pc) {
    pc.FailureHandled? || (pc.Done? && pc.built.None?) || (pc.Killed? && FailedAt(pc.at))
  }

  /** A refunded handler has failed, and no core of a handler that has not drained one is in the store. */
  ghost predicate NothingLeft(store: map<string, Object>, p: Process) {
    && (p.refunded ==> FailedAt(p.pc))
    && (NotDrained(p.pc) || FailedAt(p.pc) ==> !CoreStored(store, p))
  }

  lemma NextRefunded(p: Process, allowed: bool, env: Env)
    requires FlagsAgree(p) && (p.refunded ==> FailedAt(p.pc))
    ensures var p' := Next(p, allowed, env); p'.refunded ==> FailedAt(p'.pc)
  {
  }

  /** Once it has drained, a handler does not fail any more. */
  lemma NextStage(p: Process, allowed: bool, env: Env)
    ensures var p' := Next(p, allowed, env);
            NotDrained(p'.pc) || FailedAt(p'.pc) ==> NotDrained(p.pc) || FailedAt(p.pc)
  {
  }

  lemma DrainLeavesNothing(store: map<string, Object>, p: Process, allowed: bool, env: Env)
    requires p.pc.Draining? && !CoreStored(store, p)
    requires Stores(p) && !env.kill && env.drain.DrainErr? && env.drain.leftBehind.Some? ==>
               !env.drain.leftBehind.value.CoreObject?
    ensures NotDrained(Next(p, allowed, env).pc) ==> !CoreStored(StoreAfter(store, p, env), p)
    ensures !FailedAt(Next(p, allowed, env).pc)
  {
  }

  lemma OtherStepsKeepCore(store: map<string, Object>, p: Process, env: Env)
    requires !p.pc.Draining?
    requires CoreKeyApart(p.job)
    ensures CoreStored(StoreAfter(store, p, env), p) == CoreStored(store, p)
  {
  }

  lemma NextLeavesNothing(store: map<string, Object>, p: Process, allowed: bool, env: Env)
    requires FlagsAgree(p) && NothingLeft(store, p)
    requires CoreKeyApart(p.job)
    requires p.pc.Draining? && Stores(p) && !env.kill && env.drain.DrainErr? && env.drain.leftBehind.Some? ==>
               !env.drain.leftBehind.value.CoreObject?
    ensures NothingLeft(StoreAfter(store, p, env), Next(p, allowed, env))
  {
    var store', p' := StoreAfter(store, p, env), Next(p, allowed, env);
    NextRefunded(p, allowed, env);
    assert CoreStored(store', p') == CoreStored(store', p) by {
      assert p'.job == p.job;
    }
    if p.pc.Draining? {
      DrainLeavesNothing(store, p, allowed, env);
    } else {
      NextStage(p, allowed, env);
      OtherStepsKeepCore(store, p, env);
    }
  }

  lemma StepLeavesNothing(w: World, i: nat, env: Env, pod: RL.Pod, j: nat)
    requires DistinctTuples(w.procs) && i < |w.procs| && j < |w.procs| && FlagsAgree(w.procs[i])
    requires !LeavesCore(w, (i, env), pod) && OfPod(w.procs[j].job, pod) && NothingLeft(w.store, w.procs[j])
    ensures NothingLeft(Step(w, i, env).store, Step(w, i, env).procs[j])
  {
    if i == j {
      var p, call := w.procs[i], LimiterCall(w.procs[i], env);
      if Target(p.job) {
        OthersKeysDiffer(w.procs, i, i, Core, ProcSnapshot);
        OthersKeysDiffer(w.procs, i, i, Core, ManifestJson);
      }
      NextLeavesNothing(w.store, p, call.Some? && Answer(w, call.value), env);
    } else {
      OthersCore(w.procs, i, j, w.store, env);
    }
  }

  lemma {:induction false} NothingLeftOf(max: RL.U32, jobs: seq<Job>, schedule: Schedule, pod: RL.Pod, j: nat)
    requires DistinctTuples(Initial(max, jobs).procs) && DrainsLeaveNothing(max, jobs, schedule, pod)
    requires j < |jobs| && OfPod(jobs[j], pod)
    ensures var w := Exec(Initial(max, jobs), schedule);
            j < |w.procs| && w.procs[j].job == jobs[j] && NothingLeft(w.store, w.procs[j])
    decreases |schedule|
  {
    if schedule != [] {
      var n := |schedule| - 1;
      assert DrainsLeaveNothing(max, jobs, schedule[..n], pod) by {
        assert forall k :: 0 <= k < n ==> schedule[..n][..k] == schedule[..k];
      }
      NothingLeftOf(max, jobs, schedule[..n], pod, j);
      CoresBelongToAdmitted(max, jobs, schedule[..n]);
      ReportsAreTrue(max, jobs, schedule[..n]);
      var before := Exec(Initial(max, jobs), schedule[..n]);
      var (i, env) := schedule[n];
      if i < |before.procs| {
        assert HonestProcess(before.procs[i]) && !LeavesCore(before, schedule[n], pod);
        JobsStay(before, i, env);
        StepLeavesNothing(before, i, env, pod, j);
      }
    }
  }

  lemma {:induction false} NoneCounted(store: map<string, Object>, procs: seq<Process>, pod: RL.Pod, lo: int, hi: int)
    requires forall j :: 0 <= j < |procs| && OfPod(procs[j].job, pod) ==> NothingLeft(store, procs[j])
    ensures LeftBehind(store, procs, pod, lo, hi) == 0
    decreases |procs|
  {
    if procs != [] {
      NoneCounted(store, procs[..|procs| - 1], pod, lo, hi);
    }
  }

  lemma NoneLeftBehind(max: RL.U32, jobs: seq<Job>, schedule: Schedule, pod: RL.Pod, lo: int, hi: int)
    requires DistinctTuples(Initial(max, jobs).procs) && DrainsLeaveNothing(max, jobs, schedule, pod)
    ensures var w := Exec(Initial(max, jobs), schedule); LeftBehind(w.store, w.procs, pod, lo, hi) == 0
  {
    var w := Exec(Initial(max, jobs), schedule);
    JobsAre(max, jobs, schedule);
    forall j | 0 <= j < |w.procs| && OfPod(w.procs[j].job, pod)
      ensures NothingLeft(w.store, w.procs[j])
    {
      NothingLeftOf(max, jobs, schedule, pod, j);
    }
    NoneCounted(w.store, w.procs, pod, lo, hi);
  }

  lemma {:induction false} JobsAre(max: RL.U32, jobs: seq<Job>, schedule: Schedule)
    ensures var w := Exec(Initial(max, jobs), schedule);
            |w.procs| == |jobs| && forall j :: 0 <= j < |jobs| ==> w.procs[j].job == jobs[j]
    decreases |schedule|
  {
    if schedule != [] {
      var n := |schedule| - 1;
      JobsAre(max, jobs, schedule[..n]);
      var before := Exec(Initial(max, jobs), schedule[..n]);
      var (i, env) := schedule[n];
      if i < |before.procs| {
        JobsStay(before, i, env);
      }
    }
  }

  /**
   End to end: in every interleaving of handlers with failures and deaths, whose checks reach the lock
   at most `d` seconds out of order, the cores of a pod in the store from crashes within one window of
   `3600 - d` seconds are at most `max` cores whose handlers count against the budget, plus those that
   a failed drain left behind before its slot was refunded. Without the latter they are at most `max`,
   and there are none of the latter when no drain of the pod fails after its core has landed.
   */
  lemma StoredCoresWithinBudget(max: RL.U32, jobs: seq<Job>, schedule: Schedule, pod: RL.Pod, d: nat, lo: int)
    requires max > 0 && DistinctTuples(Initial(max, jobs).procs)
    requires var w := Exec(Initial(max, jobs), schedule); LR.AllIoOk(w.calls) && LR.OutOfOrderBy(w.calls, d)
    ensures var w, hi := Exec(Initial(max, jobs), schedule), lo + 3600 - d;
            var cores, left := |PodCores(w.store, w.procs, pod, lo, hi)|, LeftBehind(w.store, w.procs, pod, lo, hi);
            && cores == Kept(w.store, w.procs, pod, lo, hi) + left
            && Kept(w.store, w.procs, pod, lo, hi) <= max
            && (left == 0 ==> cores <= max)
            && (DrainsLeaveNothing(max, jobs, schedule, pod) ==> left == 0)
  {
    var w, hi := Exec(Initial(max, jobs), schedule), lo + RL.WINDOW - d;
    var admitted := LR.CountIn(LR.History(max, w.calls, pod), lo, hi);
    assert Kept(w.store, w.procs, pod, lo, hi) <= admitted by {
      HistoryIsBalanced(max, jobs, schedule);
      CoresBelongToAdmitted(max, jobs, schedule);
      KeptWithinHistory(w, pod, lo, hi);
    }
    assert admitted <= max by {
      LR.WindowBound(max, w.calls, pod, d, lo);
    }
    assert DistinctTuples(w.procs) by {
      CoresBelongToAdmitted(max, jobs, schedule);
    }
    CoresCounted(w.store, w.procs, pod, lo, hi);
    if DrainsLeaveNothing(max, jobs, schedule, pod) {
      NoneLeftBehind(max, jobs, schedule, pod, lo, hi);
    }
  }

  // ----- what refunded drains leave behind is not bounded -----

  const LANDS_AND_FAILS := Env(false, RL.IoOk, DrainErr(Some(CoreObject("", 0))), false, PutOk)

  /** Crashes of one container in one second, told apart by their pids. */
  function Crashes(base: Job, n: nat): seq<Job> {
    seq(n, k => base.(hostPid := k))
  }

  /** Each handler in turn is admitted, fails while finalizing although the object landed, and refunds. */
  function LeaveAll(n: nat): Schedule {
    if n == 0 then [] else LeaveAll(n - 1) + Leave(n - 1)
  }

  function Gone(job: Job): Process {
    Idle(job).(rateRecorded := true, refunded := true, pc := FailureHandled)
  }

  /** The first `k` handlers have left their cores behind, and the limiter knows of none of them. */
  ghost predicate LeftSoFar(w: World, max: RL.U32, jobs: seq<Job>, k: nat) {
    && w.max == max && w.events == map[] && LR.AllIoOk(w.calls) && |w.procs| == |jobs|
    && (forall j :: 0 <= j < |jobs| ==> w.procs[j] == if j < k then Gone(jobs[j]) else Idle(jobs[j]))
    && (forall j :: 0 <= j < k && j < |jobs| ==> CoreStored(w.store, w.procs[j]))
  }

  lemma AdmitAndRefund(max: RL.U32, pod: RL.Pod, t: int)
    requires max > 0
    ensures RL.Decide(map[], max, pod, t).Allowed?
    ensures RL.RefundedEvents(RL.CheckedEvents(map[], max, pod, t), max, pod, t) == map[]
  {
    RL.TimesChecked(map[], max, pod, t, pod);
  }

  /** The three steps of one such handler. */
  lemma LeavesOne(w: World, i: nat, job: Job)
    requires i < |w.procs| && w.procs[i] == Idle(job) && Target(job) && w.max > 0 && w.events == map[]
    ensures var w' := Step(Step(Step(w, i, PLAIN_STEP), i, LANDS_AND_FAILS), i, PLAIN_STEP);
            && w'.max == w.max && w'.events == map[]
            && w'.procs == w.procs[i := Gone(job)]
            && w'.store == w.store[KeyOf(job, Core) := CoreObject("", 0)]
            && w'.calls == w.calls + [LR.Check(job.identity.value.podUid, job.timestamp, RL.IoOk)]
                         + [LR.Refund(job.identity.value.podUid, job.timestamp, RL.IoOk)]
  {
    AdmitAndRefund(w.max, job.identity.value.podUid, job.timestamp);
    AdmitStep(w, i, PLAIN_STEP);
    var w1 := Step(w, i, PLAIN_STEP);
    FailStep(w1, i, LANDS_AND_FAILS);
    var w2 := Step(w1, i, LANDS_AND_FAILS);
    RefundStep(w2, i, PLAIN_STEP);
  }

  lemma LeftStep(w: World, w': World, max: RL.U32, jobs: seq<Job>, k: nat)
    requires k < |jobs| && LeftSoFar(w, max, jobs, k) && Target(jobs[k])
    requires w'.max == w.max && w'.events == map[] && w'.procs == w.procs[k := Gone(jobs[k])]
    requires w'.store == w.store[KeyOf(jobs[k], Core) := CoreObject("", 0)] && LR.AllIoOk(w'.calls)
    ensures LeftSoFar(w', max, jobs, k + 1)
  {
    forall j | 0 <= j < k + 1
      ensures CoreStored(w'.store, w'.procs[j])
    {
      assert j < k ==> CoreStored(w.store, w.procs[j]);
    }
  }

  lemma ThreeSteps(w: World, i: nat, a: Env, b: Env, c: Env)
    requires i < |w.procs|
    ensures Exec(w, [(i, a), (i, b), (i, c)]) == Step(Step(Step(w, i, a), i, b), i, c)
  {
    var s: Schedule := [(i, a), (i, b), (i, c)];
    assert s[..2][..1] == s[..1] && s[..1][..0] == [];
    assert Exec(w, s[..0]) == w;
    assert Exec(w, s[..1]) == Step(w, i, a);
    assert Exec(w, s[..2]) == Step(Step(w, i, a), i, b);
  }

  /** The schedule entries of one such handler. */
  function Leave(i: nat): Schedule {
    [(i, PLAIN_STEP), (i, LANDS_AND_FAILS), (i, PLAIN_STEP)]
  }

  lemma LeaveIs(w: World, i: nat, job: Job)
    requires i < |w.procs| && w.procs[i] == Idle(job) && Target(job) && w.max > 0 && w.events == map[]
             && LR.AllIoOk(w.calls)
    ensures var w' := Exec(w, Leave(i));
            && w'.max == w.max && w'.events == map[] && LR.AllIoOk(w'.calls)
            && w'.procs == w.procs[i := Gone(job)]
            && w'.store == w.store[KeyOf(job, Core) := CoreObject("", 0)]
  {
    var w' := Step(Step(Step(w, i, PLAIN_STEP), i, LANDS_AND_FAILS), i, PLAIN_STEP);
    assert Exec(w, Leave(i)) == w' by {
      ThreeSteps(w, i, PLAIN_STEP, LANDS_AND_FAILS, PLAIN_STEP);
    }
    LeavesOne(w, i, job);
    assert forall c :: 0 <= c < |w.calls| ==> w'.calls[c] == w.calls[c];
  }

  lemma OneMoreLeaves(w: World, max: RL.U32, jobs: seq<Job>, k: nat)
    requires max > 0 && k < |jobs| && LeftSoFar(w, max, jobs, k) && Target(jobs[k])
    ensures LeftSoFar(Exec(w, Leave(k)), max, jobs, k + 1)
  {
    LeaveIs(w, k, jobs[k]);
    LeftStep(w, Exec(w, Leave(k)), max, jobs, k);
  }

  lemma {:induction false} AllLeave(max: RL.U32, jobs: seq<Job>, k: nat)
    requires max > 0 && k <= |jobs| && forall j :: 0 <= j < |jobs| ==> Target(jobs[j])
    ensures LeftSoFar(Exec(Initial(max, jobs), LeaveAll(k)), max, jobs, k)
  {
    if k == 0 {
      assert LeftSoFar(Initial(max, jobs), max, jobs, 0);
    } else {
      AllLeave(max, jobs, k - 1);
      var w := Exec(Initial(max, jobs), LeaveAll(k - 1));
      OneMoreLeaves(w, max, jobs, k - 1);
      assert Exec(Initial(max, jobs), LeaveAll(k)) == Exec(w, Leave(k - 1)) by {
        ExecAppend(Initial(max, jobs), LeaveAll(k - 1), Leave(k - 1));
      }
    }
  }

  lemma {:induction false} AllCountAsLeft(store: map<string, Object>, procs: seq<Process>, pod: RL.Pod, lo: int,
                                          hi: int)
    requires forall j :: 0 <= j < |procs| ==>
               procs[j].refunded && CoreStored(store, procs[j]) && InWindow(procs[j], pod, lo, hi)
    ensures LeftBehind(store, procs, pod, lo, hi) == |procs| && Kept(store, procs, pod, lo, hi) == 0
    decreases |procs|
  {
    if procs != [] {
      AllCountAsLeft(store, procs[..|procs| - 1], pod, lo, hi);
    }
  }

  lemma CrashesAreDistinct(max: RL.U32, base: Job, n: nat)
    requires base.identity.Some? && SlashFree(TupleOf(base))
    ensures DistinctTuples(Initial(max, Crashes(base, n)).procs)
  {
    var procs := Initial(max, Crashes(base, n)).procs;
    forall i | 0 <= i < n
      ensures procs[i].job == base.(hostPid := i) && SlashFree(TupleOf(procs[i].job))
    {
    }
  }

  /** All calls carry the one timestamp there is. */
  lemma OneSecond(w: World, t: int)
    requires Honest(w) && forall j :: 0 <= j < |w.procs| ==> w.procs[j].job.timestamp == t
    ensures LR.OutOfOrderBy(w.calls, 0)
  {
    forall c | 0 <= c < |w.calls| && w.calls[c].Check?
      ensures w.calls[c].now == t
    {
      assert Accountable(w.procs, w.calls[c]);
    }
  }

  lemma AllLeftCounted(w: World, max: RL.U32, base: Job, n: nat)
    requires Target(base) && LeftSoFar(w, max, Crashes(base, n), n) && DistinctTuples(w.procs)
    ensures |PodCores(w.store, w.procs, base.identity.value.podUid, base.timestamp, base.timestamp + RL.WINDOW)| == n
  {
    var pod, t := base.identity.value.podUid, base.timestamp;
    forall j | 0 <= j < |w.procs|
      ensures w.procs[j].refunded && CoreStored(w.store, w.procs[j]) && InWindow(w.procs[j], pod, t, t + RL.WINDOW)
    {
      assert w.procs[j] == Gone(Crashes(base, n)[j]);
    }
    AllCountAsLeft(w.store, w.procs, pod, t, t + RL.WINDOW);
    CoresCounted(w.store, w.procs, pod, t, t + RL.WINDOW);
  }

  lemma AllInOneSecond(w: World, max: RL.U32, base: Job, n: nat)
    requires LeftSoFar(w, max, Crashes(base, n), n) && Honest(w)
    ensures LR.OutOfOrderBy(w.calls, 0)
  {
    forall j | 0 <= j < |w.procs|
      ensures w.procs[j].job.timestamp == base.timestamp
    {
      assert w.procs[j] == Gone(Crashes(base, n)[j]);
    }
    OneSecond(w, base.timestamp);
  }

  /**
   For every budget and every number `n` there is a run, without any limiter error and with all
   timestamps equal, after which the store holds `n` cores of one pod from one second.
   */
  lemma RefundedCoresAreUnbounded(max: RL.U32, base: Job, n: nat)
    requires max > 0 && Target(base) && SlashFree(TupleOf(base))
    ensures var w := Exec(Initial(max, Crashes(base, n)), LeaveAll(n));
            var pod, t := base.identity.value.podUid, base.timestamp;
            && LR.AllIoOk(w.calls) && LR.OutOfOrderBy(w.calls, 0)
            && |PodCores(w.store, w.procs, pod, t, t + 3600)| == n
  {
    var jobs := Crashes(base, n);
    var w := Exec(Initial(max, jobs), LeaveAll(n));
    assert LeftSoFar(w, max, jobs, n) by {
      AllLeave(max, jobs, n);
    }
    assert DistinctTuples(w.procs) by {
      CrashesAreDistinct(max, base, n);
      CoresBelongToAdmitted(max, jobs, LeaveAll(n));
    }
    assert LR.OutOfOrderBy(w.calls, 0) by {
      ReportsAreTrue(max, jobs, LeaveAll(n));
      AllInOneSecond(w, max, base, n);
    }
    AllLeftCounted(w, max, base, n);
  }
}
