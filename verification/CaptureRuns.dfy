/** What every run of the capture handlers reports, and what it does to the rate-limit budget. */
module CaptureRuns {
  import opened Text
  import opened Capture
  import RL = RateLimit
  import LR = LimiterRuns
  import Keys
  import Drain

  // ----- reports -----

  function ReportsOf(inbox: seq<(nat, Report)>, i: nat): seq<Report> {
    if inbox == [] then []
    else
      var n := |inbox| - 1;
      if inbox[n].0 == i then ReportsOf(inbox[..n], i) + [inbox[n].1] else ReportsOf(inbox[..n], i)
  }

  /**
   Whether a handler at stage `pc` counts against its pod's budget: it was admitted and is still
   draining (or about to give the slot back), or it has drained its core into the store. A handler
   that was killed counts as it did at its last stage.
   */
  predicate HoldsAt(p: Process, pc: Pc) {
    match pc
    case Start => false
    case Draining => Stores(p)
    case DrainFailed => Stores(p)
    case FailureHandled => false
    case Drained(stats) => stats.sha256.Some?
    case Snapshotted(stats, _) => stats.sha256.Some?
    case Recorded(stats, _, _) => stats.sha256.Some?
    case Done(report, _) => report.outcome == Uploaded
    case Killed(at) => HoldsAt(p, at)
  }

  /** The flags and the drain's result agree with the backend that was chosen and with the stage. */
  ghost predicate FlagsAgree(p: Process) {
    && (p.suppressed ==> Target(p.job) && !p.rateRecorded)
    && (p.rateRecorded ==> Target(p.job))
    && (p.refunded || p.failedOpen ==> p.rateRecorded)
    && (HoldsAt(p, p.pc) <==> p.rateRecorded && !p.refunded)
    && (p.pc.Start? ==> !p.suppressed && !p.rateRecorded)
    && (p.pc.Draining? || p.pc.DrainFailed? ==> !p.refunded)
    && (p.pc.FailureHandled? || (p.pc.Done? && p.pc.report.outcome == Failed) ==> p.refunded == p.rateRecorded)
    && (p.pc.Done? && p.pc.report.outcome != Failed && p.pc.report.outcome != Uploaded ==> !p.rateRecorded)
    && (p.pc.Draining? || p.pc.DrainFailed? || HasStats(p.pc) ==> (Stores(p) <==> p.rateRecorded))
    && (HasStats(p.pc) ==>
          && !p.refunded && (p.pc.stats.sha256.Some? <==> Stores(p))
          && p.pc.stats.truncated == p.pc.stats.truncatedReason.Some?
          && (p.pc.stats.truncatedReason == Some(Drain.SizeCap) ==> Stores(p)))
    && (p.pc.Recorded? ==>
          && p.pc.manifest.identity == p.job.identity
          && (p.pc.manifest.core.present <==> Stores(p))
          && p.pc.manifest.core.skippedReason == (if p.suppressed then Some("rate_limit") else None)
          && p.pc.manifest.core.truncatedReason == p.pc.stats.truncatedReason
          && CoreMatches(p.pc.manifest.core, p.pc.stats.bytes, if Stores(p) then Some(p.pc.stats.storedBytes) else None,
                         p.pc.stats.truncated))
  }

  predicate HasStats(pc: Pc) {
    pc.Drained? || pc.Snapshotted? || pc.Recorded?
  }

  /** The core's entry in a manifest agrees with the sizes and the flag a report gives. */
  ghost predicate CoreMatches(core: CoreRef, bytes: nat, storedBytes: Option<nat>, truncated: bool) {
    && core.sizeBytes == (if core.present then Some(bytes) else None)
    && core.storedBytes == storedBytes && core.truncated == truncated
    && (core.present <==> core.sha256.Some?) && (core.present <==> core.objectKey.Some?)
    && core.truncated == core.truncatedReason.Some?
    && (core.truncatedReason == Some(Drain.SizeCap) ==> core.present)
  }

  /**
   What a finished handler sent. `Failed` is sent exactly when the drain failed, so the last
   branch of the outcome choice is never taken.
   */
  ghost predicate ReportTrue(p: Process)
    requires p.pc.Done?
  {
    var report, built := p.pc.report, p.pc.built;
    && report.identity == p.job.identity
    && (report.outcome == Failed <==> built.None?)
    && (report.error <==> built.None?)
    && (built.None? ==>
          report.coreBytes == 0 && report.storedBytes.None? && !report.truncated && report.manifestKey.None?)
    && (built.Some? ==>
          && built.value.core.skippedReason in {None, Some("rate_limit")}
          && (report.outcome == Uploaded <==> built.value.core.present)
          && (report.outcome == SuppressedRateLimit <==> built.value.core.skippedReason.Some?)
          && (report.outcome == SkippedNonK8s <==> p.job.identity.None?)
          && (report.outcome == NoStoreDiscard <==> p.job.identity.Some? && !p.job.hasStore)
          && built.value.identity == p.job.identity
          && CoreMatches(built.value.core, report.coreBytes, report.storedBytes, report.truncated))
    && (report.manifestKey.Some? ==> Target(p.job) && report.manifestKey.value == KeyOf(p.job, Keys.ManifestJson))
  }

  /** The limiter was called for a process that had both an identity and a store. */
  ghost predicate CalledBy(p: Process, call: LR.Call) {
    && Target(p.job) && call.pod == p.job.identity.value.podUid
    && (if call.Check? then call.now else call.at) == p.job.timestamp
  }

  ghost predicate Accountable(procs: seq<Process>, call: LR.Call) {
    exists j :: 0 <= j < |procs| && CalledBy(procs[j], call)
  }

  ghost predicate ManifestKeyTrue(p: Process) {
    p.pc.Recorded? && p.pc.manifestKey.Some? ==>
      Target(p.job) && p.pc.manifestKey.value == KeyOf(p.job, Keys.ManifestJson)
  }

  ghost predicate HonestProcess(p: Process) {
    FlagsAgree(p) && ManifestKeyTrue(p) && (p.pc.Done? ==> ReportTrue(p))
  }

  ghost predicate Honest(w: World) {
    && (forall j :: 0 <= j < |w.procs| ==> HonestProcess(w.procs[j]))
    && (forall j :: 0 <= j < |w.procs| ==>
          ReportsOf(w.inbox, j) == if w.procs[j].pc.Done? then [w.procs[j].pc.report] else [])
    && (forall c :: 0 <= c < |w.calls| ==> Accountable(w.procs, w.calls[c]))
  }

  lemma SendAppends(inbox: seq<(nat, Report)>, i: nat, report: Report, j: nat)
    ensures ReportsOf(inbox + [(i, report)], j) == ReportsOf(inbox, j) + if i == j then [report] else []
  {
    assert (inbox + [(i, report)])[..|inbox|] == inbox;
  }

  lemma NextFlags(p: Process, allowed: bool, env: Env)
    requires FlagsAgree(p)
    ensures FlagsAgree(Next(p, allowed, env))
  {
  }

  lemma NextIsHonest(p: Process, allowed: bool, env: Env)
    requires HonestProcess(p)
    ensures Next(p, allowed, env).job == p.job && HonestProcess(Next(p, allowed, env))
  {
    NextFlags(p, allowed, env);
  }

  /** A report is sent in the step that finishes, and only there. */
  lemma SentWhenDone(p: Process, allowed: bool, env: Env)
    ensures Next(p, allowed, env).pc.Done?
            <==> p.pc.Done? || Sent(p, env).Some?
    ensures p.pc.Done? ==> Sent(p, env).None? && Next(p, allowed, env) == p
    ensures Sent(p, env).Some? ==> Next(p, allowed, env).pc.report == Sent(p, env).value
  {
  }

  lemma StepKeepsReports(w: World, i: nat, env: Env, j: nat)
    requires Honest(w) && i < |w.procs| && j < |w.procs|
    ensures var w' := Step(w, i, env);
            ReportsOf(w'.inbox, j) == if w'.procs[j].pc.Done? then [w'.procs[j].pc.report] else []
  {
    var p, call, sent := w.procs[i], LimiterCall(w.procs[i], env), Sent(w.procs[i], env);
    SentWhenDone(p, call.Some? && Answer(w, call.value), env);
    if sent.Some? {
      SendAppends(w.inbox, i, sent.value, j);
    }
  }

  lemma StepKeepsCalls(w: World, i: nat, env: Env, c: nat)
    requires Honest(w) && i < |w.procs| && c < |Step(w, i, env).calls|
    ensures Accountable(Step(w, i, env).procs, Step(w, i, env).calls[c])
  {
    var w', call := Step(w, i, env), LimiterCall(w.procs[i], env);
    assert w'.procs[i].job == w.procs[i].job;
    if c < |w.calls| {
      assert w'.calls[c] == w.calls[c] && Accountable(w.procs, w.calls[c]);
      var j :| 0 <= j < |w.procs| && CalledBy(w.procs[j], w.calls[c]);
      assert CalledBy(w'.procs[j], w'.calls[c]);
    } else {
      assert w'.calls[c] == call.value && CalledBy(w'.procs[i], w'.calls[c]);
    }
  }

  lemma StepKeepsProcess(w: World, i: nat, env: Env, j: nat)
    requires i < |w.procs| && j < |w.procs| && HonestProcess(w.procs[i]) && HonestProcess(w.procs[j])
    ensures HonestProcess(Step(w, i, env).procs[j])
  {
    var call := LimiterCall(w.procs[i], env);
    NextIsHonest(w.procs[i], call.Some? && Answer(w, call.value), env);
  }

  lemma StepKeepsHonest(w: World, i: nat, env: Env)
    requires Honest(w) && i < |w.procs|
    ensures Honest(Step(w, i, env))
  {
    var w' := Step(w, i, env);
    forall j | 0 <= j < |w'.procs|
      ensures HonestProcess(w'.procs[j])
    {
      StepKeepsProcess(w, i, env, j);
    }
    forall j | 0 <= j < |w'.procs|
      ensures ReportsOf(w'.inbox, j) == if w'.procs[j].pc.Done? then [w'.procs[j].pc.report] else []
    {
      StepKeepsReports(w, i, env, j);
    }
    forall c | 0 <= c < |w'.calls|
      ensures Accountable(w'.procs, w'.calls[c])
    {
      StepKeepsCalls(w, i, env, c);
    }
  }

  /**
   In every interleaving: a handler that runs to its end sends exactly one report, which is true
   to what it did; a handler that was killed sends none; the limiter is consulted only by handlers
   with both an identity and a store.
   */
  lemma {:induction false} ReportsAreTrue(max: RL.U32, jobs: seq<Job>, schedule: Schedule)
    ensures Honest(Exec(Initial(max, jobs), schedule))
    decreases |schedule|
  {
    if schedule != [] {
      var n := |schedule| - 1;
      ReportsAreTrue(max, jobs, schedule[..n]);
      var before := Exec(Initial(max, jobs), schedule[..n]);
      var (i, env) := schedule[n];
      if i < |before.procs| {
        StepKeepsHonest(before, i, env);
      }
    }
  }

  // ----- the budget -----

  predicate OfPod(job: Job, pod: RL.Pod) {
    job.identity.Some? && job.identity.value.podUid == pod
  }

  /** The slot of `pod`'s budget a process holds, by its stage. */
  function Slot(p: Process, pod: RL.Pod): seq<int> {
    if HoldsAt(p, p.pc) && OfPod(p.job, pod) then [p.job.timestamp] else []
  }

  function Slots(procs: seq<Process>, pod: RL.Pod): seq<seq<int>> {
    seq(|procs|, j requires 0 <= j < |procs| => Slot(procs[j], pod))
  }

  function Flatten(slots: seq<seq<int>>): seq<int> {
    if slots == [] then [] else Flatten(slots[..|slots| - 1]) + slots[|slots| - 1]
  }

  /** The slots of `pod`'s budget that its handlers hold. */
  function Held(procs: seq<Process>, pod: RL.Pod): seq<int> {
    Flatten(Slots(procs, pod))
  }

  function Count(times: seq<int>, t: int): nat {
    multiset(times)[t]
  }

  lemma FlattenSplit(slots: seq<seq<int>>, t: int)
    requires slots != []
    ensures Count(Flatten(slots), t) == Count(Flatten(slots[..|slots| - 1]), t) + Count(slots[|slots| - 1], t)
  {
  }

  lemma {:induction false} FlattenCount(slots: seq<seq<int>>, i: nat, slot: seq<int>, t: int)
    requires i < |slots|
    ensures Count(Flatten(slots[i := slot]), t) + Count(slots[i], t) == Count(Flatten(slots), t) + Count(slot, t)
    decreases |slots|
  {
    var n, changed := |slots| - 1, slots[i := slot];
    FlattenSplit(slots, t);
    FlattenSplit(changed, t);
    if i < n {
      FlattenCount(slots[..n], i, slot, t);
      assert changed[..n] == slots[..n][i := slot];
    } else {
      assert changed[..n] == slots[..n];
    }
  }

  lemma HeldUpdate(procs: seq<Process>, i: nat, p: Process, pod: RL.Pod)
    requires i < |procs|
    ensures multiset(Held(procs[i := p], pod)) + multiset(Slot(procs[i], pod))
         == multiset(Held(procs, pod)) + multiset(Slot(p, pod))
  {
    var slots, slot := Slots(procs, pod), Slot(p, pod);
    assert Slots(procs[i := p], pod) == slots[i := slot];
    forall t: int
      ensures Count(Flatten(slots[i := slot]), t) + Count(slots[i], t) == Count(Flatten(slots), t) + Count(slot, t)
    {
      FlattenCount(slots, i, slot, t);
    }
    SameCounts(Flatten(slots[i := slot]), slots[i], Flatten(slots), slot);
  }

  lemma SameCounts(a: seq<int>, b: seq<int>, c: seq<int>, d: seq<int>)
    requires forall t :: Count(a, t) + Count(b, t) == Count(c, t) + Count(d, t)
    ensures multiset(a) + multiset(b) == multiset(c) + multiset(d)
  {
    forall t: int
      ensures (multiset(a) + multiset(b))[t] == (multiset(c) + multiset(d))[t]
    {
      assert Count(a, t) + Count(b, t) == Count(c, t) + Count(d, t);
    }
  }

  /** The limiter's unpruned history of every pod is, as a multiset, the slots now held. */
  ghost predicate Balanced(w: World) {
    && w.events == LR.Run(w.max, w.calls)
    && (forall j :: 0 <= j < |w.procs| ==> FlagsAgree(w.procs[j]))
    && (forall pod :: multiset(LR.History(w.max, w.calls, pod)) == multiset(Held(w.procs, pod)))
  }

  lemma HistoryGrows(max: RL.U32, calls: seq<LR.Call>, call: LR.Call, pod: RL.Pod)
    requires max > 0 && call.io == RL.IoOk
    ensures LR.Run(max, calls + [call]) == LR.Apply(LR.Run(max, calls), max, call)
    ensures LR.History(max, calls + [call], pod)
         == if call.pod != pod then LR.History(max, calls, pod)
            else if call.Refund? then RL.WithoutLast(LR.History(max, calls, pod), call.at)
            else if RL.Decide(LR.Run(max, calls), max, pod, call.now).Allowed?
            then LR.History(max, calls, pod) + [call.now]
            else LR.History(max, calls, pod)
  {
    assert (calls + [call])[..|calls|] == calls;
  }

  /** A step moves a slot exactly when it calls the limiter. */
  lemma SlotMoves(p: Process, allowed: bool, env: Env, pod: RL.Pod)
    requires FlagsAgree(p)
    ensures var p', call := Next(p, allowed, env), LimiterCall(p, env);
            match call
            case None => Slot(p', pod) == Slot(p, pod)
            case Some(Check(q, now, _)) =>
              Slot(p, pod) == [] && Slot(p', pod) == if allowed && q == pod then [now] else []
            case Some(Refund(q, at, _)) => Slot(p', pod) == [] && Slot(p, pod) == if q == pod then [at] else []
  {
    NextFlags(p, allowed, env);
  }

  lemma StepSlots(w: World, i: nat, env: Env, pod: RL.Pod)
    requires w.max > 0 && Balanced(w) && i < |w.procs| && LR.AllIoOk(Step(w, i, env).calls)
    ensures var w' := Step(w, i, env);
            multiset(LR.History(w.max, w'.calls, pod)) == multiset(Held(w'.procs, pod))
  {
    var p, call := w.procs[i], LimiterCall(w.procs[i], env);
    var allowed := call.Some? && Answer(w, call.value);
    var p' := Next(p, allowed, env);
    HeldUpdate(w.procs, i, p', pod);
    SlotMoves(p, allowed, env, pod);
    var history, held, held' := LR.History(w.max, w.calls, pod), Held(w.procs, pod), Held(w.procs[i := p'], pod);
    assert multiset(history) == multiset(held);
    if call.Some? {
      assert call.value == (w.calls + [call.value])[|w.calls|];
      HistoryGrows(w.max, w.calls, call.value, pod);
      if call.value.Refund? {
        SlotIsHeld(w.procs, i, pod);
        RL.WithoutLastMultiset(history, call.value.at);
        TakeAway(multiset(held'), multiset(Slot(p, pod)), multiset(held), multiset(Slot(p', pod)));
      } else {
        TakeAway(multiset(held'), multiset(Slot(p, pod)), multiset(held), multiset(Slot(p', pod)));
      }
    } else {
      TakeAway(multiset(held'), multiset(Slot(p, pod)), multiset(held), multiset(Slot(p', pod)));
    }
  }

  lemma TakeAway(a: multiset<int>, b: multiset<int>, c: multiset<int>, d: multiset<int>)
    requires a + b == c + d
    ensures a == (c + d) - b
    ensures b == d ==> a == c
    ensures b == multiset{} ==> a == c + d
    ensures d == multiset{} ==> a == c - b
  {
    assert forall x :: (a + b)[x] == (c + d)[x];
  }

  lemma {:induction false} PartOfFlatten(slots: seq<seq<int>>, i: nat)
    requires i < |slots|
    ensures multiset(slots[i]) <= multiset(Flatten(slots))
    decreases |slots|
  {
    if i < |slots| - 1 {
      PartOfFlatten(slots[..|slots| - 1], i);
    }
  }

  lemma SlotIsHeld(procs: seq<Process>, i: nat, pod: RL.Pod)
    requires i < |procs|
    ensures multiset(Slot(procs[i], pod)) <= multiset(Held(procs, pod))
  {
    PartOfFlatten(Slots(procs, pod), i);
  }

  lemma StepKeepsBalance(w: World, i: nat, env: Env)
    requires w.max > 0 && Balanced(w) && Honest(w) && i < |w.procs| && LR.AllIoOk(Step(w, i, env).calls)
    ensures Balanced(Step(w, i, env))
  {
    var w', call := Step(w, i, env), LimiterCall(w.procs[i], env);
    NextIsHonest(w.procs[i], call.Some? && Answer(w, call.value), env);
    if call.Some? {
      assert call.value == (w.calls + [call.value])[|w.calls|];
      HistoryGrows(w.max, w.calls, call.value, call.value.pod);
    }
    forall pod
      ensures multiset(LR.History(w'.max, w'.calls, pod)) == multiset(Held(w'.procs, pod))
    {
      StepSlots(w, i, env, pod);
    }
  }

  /** The whole unpruned history is balanced at every moment of every run. */
  lemma {:induction false} HistoryIsBalanced(max: RL.U32, jobs: seq<Job>, schedule: Schedule)
    requires max > 0 && LR.AllIoOk(Exec(Initial(max, jobs), schedule).calls)
    ensures Balanced(Exec(Initial(max, jobs), schedule)) && Exec(Initial(max, jobs), schedule).max == max
    decreases |schedule|
  {
    if schedule == [] {
      InitialHoldsNothing(max, jobs);
    } else {
      var n := |schedule| - 1;
      var before := Exec(Initial(max, jobs), schedule[..n]);
      var (i, env) := schedule[n];
      if i < |before.procs| {
        assert LR.AllIoOk(before.calls) by {
          var after := Step(before, i, env);
          assert forall c :: 0 <= c < |before.calls| ==> before.calls[c] == after.calls[c];
        }
        HistoryIsBalanced(max, jobs, schedule[..n]);
        ReportsAreTrue(max, jobs, schedule[..n]);
        StepKeepsBalance(before, i, env);
      } else {
        HistoryIsBalanced(max, jobs, schedule[..n]);
      }
    }
  }

  lemma InitialHoldsNothing(max: RL.U32, jobs: seq<Job>)
    ensures forall pod :: Held(Initial(max, jobs).procs, pod) == []
  {
    forall pod
      ensures Held(Initial(max, jobs).procs, pod) == []
    {
      NoSlotsHeld(Initial(max, jobs).procs, pod);
    }
  }

  lemma NoSlotsHeld(procs: seq<Process>, pod: RL.Pod)
    requires forall j :: 0 <= j < |procs| ==> Slot(procs[j], pod) == []
    ensures Held(procs, pod) == []
  {
    NothingToFlatten(Slots(procs, pod));
  }

  lemma {:induction false} NothingToFlatten(slots: seq<seq<int>>)
    requires forall j :: 0 <= j < |slots| ==> slots[j] == []
    ensures Flatten(slots) == []
  {
    if slots != [] {
      NothingToFlatten(slots[..|slots| - 1]);
    }
  }

  lemma {:induction false} AfterCounts(times: seq<int>, c: int, t: int)
    ensures multiset(RL.After(times, c))[t] == if t > c then multiset(times)[t] else 0
  {
    if times != [] {
      var n := |times| - 1;
      AfterCounts(times[..n], c, t);
      assert times == times[..n] + [times[n]];
    }
  }

  lemma SameMultisetSameWindow(a: seq<int>, b: seq<int>, c: int)
    requires multiset(a) == multiset(b)
    ensures multiset(RL.After(a, c)) == multiset(RL.After(b, c))
    ensures |RL.After(a, c)| == |RL.After(b, c)|
  {
    forall t
      ensures multiset(RL.After(a, c))[t] == multiset(RL.After(b, c))[t]
    {
      AfterCounts(a, c, t);
      AfterCounts(b, c, t);
    }
    assert multiset(RL.After(a, c)) == multiset(RL.After(b, c));
    assert |multiset(RL.After(a, c))| == |RL.After(a, c)|;
    assert |multiset(RL.After(b, c))| == |RL.After(b, c)|;
  }

  /**
   Conservation across interleaved handlers: at every moment, the entries of the state file inside
   the window of any check to come are, as a multiset, the timestamps of the pod's handlers that are
   still draining, have drained their core into the store, or were killed while they counted.
   */
  lemma BudgetIsConserved(max: RL.U32, jobs: seq<Job>, schedule: Schedule, pod: RL.Pod, c: int)
    requires max > 0
    requires var w := Exec(Initial(max, jobs), schedule); LR.AllIoOk(w.calls) && LR.PrunedUpTo(w.calls, c)
    ensures var w := Exec(Initial(max, jobs), schedule);
            && multiset(RL.After(RL.Times(w.events, pod), c)) == multiset(RL.After(Held(w.procs, pod), c))
            && |RL.After(RL.Times(w.events, pod), c)| == |RL.After(Held(w.procs, pod), c)|
  {
    var w := Exec(Initial(max, jobs), schedule);
    HistoryIsBalanced(max, jobs, schedule);
    LR.StateAgreesWithHistory(max, w.calls, pod, c);
    SameMultisetSameWindow(LR.History(max, w.calls, pod), Held(w.procs, pod), c);
  }

  /** What the next crash of a pod is answered depends on the slots held inside its window and on nothing else. */
  lemma HeldSlotsDecide(max: RL.U32, jobs: seq<Job>, schedule: Schedule, pod: RL.Pod, now: int)
    requires max > 0
    requires var w := Exec(Initial(max, jobs), schedule);
             LR.AllIoOk(w.calls) && LR.PrunedUpTo(w.calls, now - 3600)
    ensures var w := Exec(Initial(max, jobs), schedule);
            RL.Decide(w.events, max, pod, now) == LR.ReferenceDecision(Held(w.procs, pod), max, now)
  {
    BudgetIsConserved(max, jobs, schedule, pod, now - RL.WINDOW);
  }

  /** The handler has not started, or reported that it kept no core. */
  predicate KeptNothing(p: Process) {
    p.pc.Start? || (p.pc.Done? && p.pc.report.outcome != Uploaded)
  }

  /**
   Failures leave no trace: if every handler of a pod that has started reported an outcome other than
   `Uploaded`, be it a failed drain, a suppressed core or anything else, then no entry of the pod is
   left in the window and its next crash is admitted.
   */
  lemma FailuresLeaveNoTrace(max: RL.U32, jobs: seq<Job>, schedule: Schedule, pod: RL.Pod, now: int)
    requires max > 0
    requires var w := Exec(Initial(max, jobs), schedule);
             && LR.AllIoOk(w.calls) && LR.PrunedUpTo(w.calls, now - 3600)
             && (forall j :: 0 <= j < |w.procs| && OfPod(w.procs[j].job, pod) ==> KeptNothing(w.procs[j]))
    ensures var w := Exec(Initial(max, jobs), schedule);
            && RL.After(RL.Times(w.events, pod), now - 3600) == []
            && RL.Decide(w.events, max, pod, now) == RL.Allowed
  {
    var w := Exec(Initial(max, jobs), schedule);
    NoSlotsHeld(w.procs, pod);
    BudgetIsConserved(max, jobs, schedule, pod, now - RL.WINDOW);
  }

  // ----- a killed handler keeps its slot -----

  lemma {:induction false} ExecAppend(w: World, first: Schedule, more: Schedule)
    ensures Exec(w, first + more) == Exec(Exec(w, first), more)
    decreases |more|
  {
    if more == [] {
      assert first + more == first;
    } else {
      var n := |more| - 1;
      ExecAppend(w, first, more[..n]);
      assert (first + more)[..|first| + n] == first + more[..n];
    }
  }

  lemma {:induction false} HaltedStays(w: World, more: Schedule, i: nat)
    requires i < |w.procs| && Halted(w.procs[i].pc)
    ensures i < |Exec(w, more).procs| && Exec(w, more).procs[i] == w.procs[i]
    decreases |more|
  {
    if more != [] {
      var n := |more| - 1;
      HaltedStays(w, more[..n], i);
      var before := Exec(w, more[..n]);
      var (j, env) := more[n];
      assert j < |before.procs| ==> |Step(before, j, env).procs| == |before.procs|;
    }
  }

  /**
   Nobody gives back the slot of a handler that was killed while it counted, even one killed before
   it stored anything: whatever happens later, its entry is there until it leaves the window.
   */
  lemma KilledKeepsItsSlot(max: RL.U32, jobs: seq<Job>, schedule: Schedule, more: Schedule, i: nat, pod: RL.Pod, c: int)
    requires var w := Exec(Initial(max, jobs), schedule);
             i < |w.procs| && w.procs[i].pc.Killed? && Slot(w.procs[i], pod) != [] && w.procs[i].job.timestamp > c
    requires var w' := Exec(Initial(max, jobs), schedule + more);
             max > 0 && LR.AllIoOk(w'.calls) && LR.PrunedUpTo(w'.calls, c)
    ensures Exec(Initial(max, jobs), schedule).procs[i].job.timestamp
            in RL.Times(Exec(Initial(max, jobs), schedule + more).events, pod)
  {
    var w, w' := Exec(Initial(max, jobs), schedule), Exec(Initial(max, jobs), schedule + more);
    var t := w.procs[i].job.timestamp;
    assert i < |w'.procs| && w'.procs[i] == w.procs[i] by {
      ExecAppend(Initial(max, jobs), schedule, more);
      HaltedStays(w, more, i);
    }
    assert t in Held(w'.procs, pod) by {
      SlotIsHeld(w'.procs, i, pod);
      assert t in multiset(Slot(w'.procs[i], pod));
    }
    BudgetIsConserved(max, jobs, schedule + more, pod, c);
    EntryKept(RL.Times(w'.events, pod), Held(w'.procs, pod), c, t);
  }

  lemma EntryKept(times: seq<int>, held: seq<int>, c: int, t: int)
    requires multiset(RL.After(times, c)) == multiset(RL.After(held, c)) && t in held && t > c
    ensures t in times
  {
    AfterCounts(times, c, t);
    AfterCounts(held, c, t);
    assert multiset(held)[t] > 0;
  }

  // ----- the steps of a handler that is admitted, fails and refunds -----

  /** The limiter's IO succeeds; a drain fails and leaves nothing behind. */
  const PLAIN_STEP := Env(false, RL.IoOk, DrainErr(None), false, PutOk)

  lemma AdmitStep(w: World, i: nat, env: Env)
    requires i < |w.procs| && !env.kill && w.procs[i].pc.Start? && Target(w.procs[i].job)
    requires env.io == RL.IoOk ==>
               RL.Decide(w.events, w.max, w.procs[i].job.identity.value.podUid, w.procs[i].job.timestamp).Allowed?
    ensures var w', p := Step(w, i, env), w.procs[i];
            && w'.max == w.max && w'.store == w.store
            && w'.events == RL.OnIo(w.events, RL.CheckedEvents(w.events, w.max, p.job.identity.value.podUid,
                                                               p.job.timestamp),
                                    w.max, env.io)
            && w'.calls == w.calls + [LR.Check(p.job.identity.value.podUid, p.job.timestamp, env.io)]
            && w'.procs == w.procs[i := p.(suppressed := false, rateRecorded := true, failedOpen := env.io != RL.IoOk,
                                           pc := Draining)]
  {
  }

  lemma FailStep(w: World, i: nat, env: Env)
    requires i < |w.procs| && !env.kill && w.procs[i].pc.Draining? && env.drain.DrainErr?
    ensures var w', p := Step(w, i, env), w.procs[i];
            && w'.max == w.max && w'.events == w.events && w'.calls == w.calls
            && w'.procs == w.procs[i := p.(pc := DrainFailed)]
            && w'.store == if Stores(p) && env.drain.leftBehind.Some? && env.drain.leftBehind.value.CoreObject?
                           then w.store[KeyOf(p.job, Keys.Core) := env.drain.leftBehind.value] else w.store
  {
  }

  lemma RefundStep(w: World, i: nat, env: Env)
    requires i < |w.procs| && !env.kill && w.procs[i].pc.DrainFailed? && w.procs[i].rateRecorded
             && Target(w.procs[i].job)
    ensures var w', p := Step(w, i, env), w.procs[i];
            && w'.max == w.max && w'.store == w.store
            && w'.events == RL.OnIo(w.events, RL.RefundedEvents(w.events, w.max, p.job.identity.value.podUid,
                                                                p.job.timestamp),
                                    w.max, env.io)
            && w'.calls == w.calls + [LR.Refund(p.job.identity.value.podUid, p.job.timestamp, env.io)]
            && w'.procs == w.procs[i := p.(refunded := true, pc := FailureHandled)]
  {
  }
}
