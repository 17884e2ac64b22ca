/** Handlers whose limiter check failed open, and what their refunds do to the others. */
module FailOpen {
  import opened Text
  import opened Capture
  import opened CaptureRuns
  import RL = RateLimit
  import LR = LimiterRuns

  // ----- every entry of the state file was recorded by a handler -----

  /** The handler's own check put the entry into the state file. */
  predicate RecordedBy(p: Process, pod: RL.Pod, t: int) {
    p.rateRecorded && !p.failedOpen && OfPod(p.job, pod) && p.job.timestamp == t
  }

  ghost predicate HasRecorder(procs: seq<Process>, pod: RL.Pod, t: int) {
    exists j :: 0 <= j < |procs| && RecordedBy(procs[j], pod, t)
  }

  ghost predicate EntriesRecorded(w: World) {
    forall pod, t :: t in RL.Times(w.events, pod) ==> HasRecorder(w.procs, pod, t)
  }

  lemma {:induction false} AfterKeepsOnly(times: seq<int>, c: int, t: int)
    ensures t in RL.After(times, c) ==> t in times
  {
    if times != [] {
      AfterKeepsOnly(times[..|times| - 1], c, t);
    }
  }

  lemma {:induction false} WithoutLastKeepsOnly(times: seq<int>, at: int, t: int)
    ensures t in RL.WithoutLast(times, at) ==> t in times
  {
    if times != [] {
      WithoutLastKeepsOnly(times[..|times| - 1], at, t);
    }
  }

  /** The only entry a call adds is that of an allowed check whose IO succeeded. */
  lemma CallAddsOnlyItsOwn(events: RL.Events, max: RL.U32, call: LR.Call, pod: RL.Pod, t: int)
    requires t in RL.Times(LR.Apply(events, max, call), pod) && t !in RL.Times(events, pod)
    ensures call == LR.Check(pod, t, RL.IoOk) && RL.Decide(events, max, pod, t).Allowed?
  {
    if max > 0 && call.io == RL.IoOk {
      match call
      case Check(q, now, _) =>
        RL.TimesChecked(events, max, q, now, pod);
        AfterKeepsOnly(RL.Times(events, pod), now - RL.WINDOW, t);
      case Refund(q, at, _) =>
        RL.TimesRefunded(events, max, q, at, pod);
        WithoutLastKeepsOnly(RL.Times(events, pod), at, t);
    }
  }

  lemma NextKeepsRecord(p: Process, allowed: bool, env: Env, pod: RL.Pod, t: int)
    requires FlagsAgree(p) && RecordedBy(p, pod, t)
    ensures RecordedBy(Next(p, allowed, env), pod, t)
  {
  }

  lemma StepKeepsRecorded(w: World, i: nat, env: Env, pod: RL.Pod, t: int)
    requires i < |w.procs| && FlagsAgree(w.procs[i]) && EntriesRecorded(w)
    requires t in RL.Times(Step(w, i, env).events, pod)
    ensures HasRecorder(Step(w, i, env).procs, pod, t)
  {
    var w', p, call := Step(w, i, env), w.procs[i], LimiterCall(w.procs[i], env);
    if t in RL.Times(w.events, pod) {
      assert HasRecorder(w.procs, pod, t);
      var j :| 0 <= j < |w.procs| && RecordedBy(w.procs[j], pod, t);
      if i == j {
        NextKeepsRecord(p, call.Some? && Answer(w, call.value), env, pod, t);
      }
      assert RecordedBy(w'.procs[j], pod, t);
    } else {
      CallAddsOnlyItsOwn(w.events, w.max, call.value, pod, t);
      assert RecordedBy(w'.procs[i], pod, t);
    }
  }

  /** In every run, failed IO included: the file is what the calls made of it, and each entry has its handler. */
  lemma {:induction false} EntriesAreRecorded(max: RL.U32, jobs: seq<Job>, schedule: Schedule)
    ensures var w := Exec(Initial(max, jobs), schedule);
            w.max == max && w.events == LR.Run(max, w.calls) && EntriesRecorded(w)
    decreases |schedule|
  {
    if schedule != [] {
      var n := |schedule| - 1;
      EntriesAreRecorded(max, jobs, schedule[..n]);
      ReportsAreTrue(max, jobs, schedule[..n]);
      var before := Exec(Initial(max, jobs), schedule[..n]);
      var (i, env) := schedule[n];
      if i < |before.procs| {
        StepFollowsRun(before, i, env);
        assert HonestProcess(before.procs[i]);
        forall pod, t | t in RL.Times(Step(before, i, env).events, pod)
          ensures HasRecorder(Step(before, i, env).procs, pod, t)
        {
          StepKeepsRecorded(before, i, env, pod, t);
        }
      }
    }
  }

  lemma StepFollowsRun(w: World, i: nat, env: Env)
    requires i < |w.procs| && w.events == LR.Run(w.max, w.calls)
    ensures Step(w, i, env).events == LR.Run(w.max, Step(w, i, env).calls)
  {
    var call := LimiterCall(w.procs[i], env);
    if call.Some? {
      LR.RunAppend(w.max, w.calls, call.value, call.value.pod);
    }
  }

  // ----- the refund of a handler whose check failed open -----

  /** The handler's drain failed, and it is about to refund a slot it never recorded. */
  predicate RefundsUnrecorded(p: Process) {
    p.pc.DrainFailed? && p.failedOpen
  }

  /**
   Its refund leaves the state file as it was if and only if the pod's stored list does not hold its
   timestamp. If the list does hold it, the refund removes an entry that another handler recorded.
   */
  lemma FailOpenRefund(max: RL.U32, jobs: seq<Job>, schedule: Schedule, i: nat, env: Env)
    requires max > 0 && !env.kill && env.io == RL.IoOk
    requires var w := Exec(Initial(max, jobs), schedule); i < |w.procs| && RefundsUnrecorded(w.procs[i])
    ensures var w := Exec(Initial(max, jobs), schedule);
            var w', job := Step(w, i, env), w.procs[i].job;
            && Target(job)
            && var pod, t := job.identity.value.podUid, job.timestamp;
               && (w'.events == w.events <==> t !in RL.Times(w.events, pod))
               && multiset(RL.Times(w'.events, pod)) == multiset(RL.Times(w.events, pod)) - multiset{t}
               && (t in RL.Times(w.events, pod) ==>
                     exists j :: 0 <= j < |w.procs| && j != i && RecordedBy(w.procs[j], pod, t))
  {
    var w := Exec(Initial(max, jobs), schedule);
    EntriesAreRecorded(max, jobs, schedule);
    ReportsAreTrue(max, jobs, schedule);
    assert HonestProcess(w.procs[i]);
    var pod, t := w.procs[i].job.identity.value.podUid, w.procs[i].job.timestamp;
    assert LimiterCall(w.procs[i], env) == Some(LR.Refund(pod, t, RL.IoOk));
    LR.RefundIsHarmlessIff(max, w.calls, pod, t);
    StepFollowsRun(w, i, env);
    if t in RL.Times(w.events, pod) {
      assert HasRecorder(w.procs, pod, t);
    }
  }

  // ----- a recorded slot is lost -----

  /** A step that finds the limiter's state file unavailable. */
  const FAIL_OPEN_STEP := Env(false, RL.Unavailable, DrainErr(None), false, PutOk)

  /** One handler is admitted; a second one's check fails open, its drain fails, it refunds. */
  const COLLISION: Schedule := [(0, PLAIN_STEP), (1, FAIL_OPEN_STEP), (1, PLAIN_STEP), (1, PLAIN_STEP)]

  lemma SecondRefundsFirst(events: RL.Events, max: RL.U32, pod: RL.Pod, t: int)
    requires max > 0 && events == RL.CheckedEvents(map[], max, pod, t)
    ensures RL.Times(events, pod) == [t] && RL.RefundedEvents(events, max, pod, t) == map[]
  {
    RL.TimesChecked(map[], max, pod, t, pod);
  }

  /** A handler that is draining with a recorded slot. */
  function Admitted(job: Job): Process {
    Idle(job).(rateRecorded := true, pc := Draining)
  }

  lemma CollisionSteps(max: RL.U32, first: Job, second: Job)
    requires max > 0 && Target(first) && Target(second)
    requires first.identity.value.podUid == second.identity.value.podUid && first.timestamp == second.timestamp
    ensures var w1 := Step(Initial(max, [first, second]), 0, PLAIN_STEP);
            var w4 := Step(Step(Step(w1, 1, FAIL_OPEN_STEP), 1, PLAIN_STEP), 1, PLAIN_STEP);
            |w4.procs| == 2 && w4.procs[0] == Admitted(first) && w4.events == map[]
  {
    var w0 := Initial(max, [first, second]);
    var w1 := Step(w0, 0, PLAIN_STEP);
    AdmitStep(w0, 0, PLAIN_STEP);
    SecondRefundsFirst(w1.events, max, first.identity.value.podUid, first.timestamp);
    assert w1.procs == [Admitted(first), Idle(second)];
    FailOpenSteps(w1, second);
  }

  /** The three steps of the handler whose check fails open. */
  lemma FailOpenSteps(w: World, second: Job)
    requires |w.procs| == 2 && w.procs[1] == Idle(second) && Target(second)
    ensures var w' := Step(Step(Step(w, 1, FAIL_OPEN_STEP), 1, PLAIN_STEP), 1, PLAIN_STEP);
            && |w'.procs| == 2 && w'.procs[0] == w.procs[0]
            && w'.events == RL.RefundedEvents(w.events, w.max, second.identity.value.podUid, second.timestamp)
  {
    var w2 := Step(w, 1, FAIL_OPEN_STEP);
    AdmitStep(w, 1, FAIL_OPEN_STEP);
    var w3 := Step(w2, 1, PLAIN_STEP);
    FailStep(w2, 1, PLAIN_STEP);
    RefundStep(w3, 1, PLAIN_STEP);
  }

  /**
   Two crashes of one pod in one second, for every budget: the first handler is draining with a
   recorded slot, and the state file no longer knows of it.
   */
  lemma RecordedSlotLost(max: RL.U32, first: Job, second: Job)
    requires max > 0 && Target(first) && Target(second)
    requires first.identity.value.podUid == second.identity.value.podUid && first.timestamp == second.timestamp
    ensures var w := Exec(Initial(max, [first, second]), COLLISION);
            && |w.procs| == 2 && w.procs[0] == Admitted(first) && HoldsAt(w.procs[0], w.procs[0].pc)
            && w.events == map[]
  {
    var w0 := Initial(max, [first, second]);
    var w4 := Step(Step(Step(Step(w0, 0, PLAIN_STEP), 1, FAIL_OPEN_STEP), 1, PLAIN_STEP), 1, PLAIN_STEP);
    assert Exec(w0, COLLISION) == w4 by {
      FourSteps(w0, COLLISION);
    }
    CollisionSteps(max, first, second);
  }

  lemma FourSteps(w: World, s: Schedule)
    requires |s| == 4 && forall k :: 0 <= k < 4 ==> s[k].0 < |w.procs|
    ensures Exec(w, s) == Step(Step(Step(Step(w, s[0].0, s[0].1), s[1].0, s[1].1), s[2].0, s[2].1), s[3].0, s[3].1)
  {
    assert s[..3][..2] == s[..2] && s[..2][..1] == s[..1] && s[..1][..0] == [];
    assert Exec(w, s[..0]) == w;
    assert Exec(w, s[..1]) == Step(w, s[0].0, s[0].1);
    assert Exec(w, s[..2]) == Step(Exec(w, s[..1]), s[1].0, s[1].1);
    assert Exec(w, s[..3]) == Step(Exec(w, s[..2]), s[2].0, s[2].1);
  }
}
