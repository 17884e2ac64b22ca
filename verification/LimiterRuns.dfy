/**
 Whole runs of the limiter: any number of handlers taking the lock in any order. Time is the
 kernel's crash timestamp, so the order at the lock need not be the order of the timestamps.
 */
module LimiterRuns {
  import opened RateLimit

  datatype Call =
    | Check(pod: Pod, now: int, io: Io)
    | Refund(pod: Pod, at: int, io: Io)

  function Apply(events: Events, max: U32, call: Call): Events {
    match call
    case Check(pod, now, io) => OnIo(events, CheckedEvents(events, max, pod, now), max, io)
    case Refund(pod, at, io) => OnIo(events, RefundedEvents(events, max, pod, at), max, io)
  }

  /** The state file after the calls, starting from no file. */
  function Run(max: U32, calls: seq<Call>): Events {
    if calls == [] then map[]
    else Apply(Run(max, calls[..|calls| - 1]), max, calls[|calls| - 1])
  }

  /** What the `i`-th call, a check, answered. */
  function DecisionAt(max: U32, calls: seq<Call>, i: nat): Decision
    requires i < |calls| && calls[i].Check?
  {
    if calls[i].io == IoOk then Decide(Run(max, calls[..i]), max, calls[i].pod, calls[i].now) else Allowed
  }

  /** What a call does to the pod's history of admissions that were not refunded. */
  function NextHistory(max: U32, events: Events, history: seq<int>, call: Call, pod: Pod): seq<int> {
    if max == 0 || call.pod != pod then history
    else match call
      case Check(_, now, io) =>
        if io != IoOk || Decide(events, max, pod, now).Allowed? then history + [now] else history
      case Refund(_, at, _) => WithoutLast(history, at)
  }

  /** The pod's admissions so far, in order, less the refunded ones. Nothing is ever pruned. */
  function History(max: U32, calls: seq<Call>, pod: Pod): seq<int> {
    if calls == [] then []
    else
      var n := |calls| - 1;
      NextHistory(max, Run(max, calls[..n]), History(max, calls[..n], pod), calls[n], pod)
  }

  ghost predicate AllIoOk(calls: seq<Call>) {
    forall i :: 0 <= i < |calls| ==> calls[i].io == IoOk
  }

  /** No check so far had a window starting after `cutoff`. */
  ghost predicate PrunedUpTo(calls: seq<Call>, cutoff: int) {
    forall i :: 0 <= i < |calls| && calls[i].Check? ==> calls[i].now - WINDOW <= cutoff
  }

  // ----- the pruned map agrees with the unpruned history -----

  /** For every pod, in any order of timestamps, past every cutoff used so far. */
  lemma {:induction false} StateAgreesWithHistory(max: U32, calls: seq<Call>, pod: Pod, c: int)
    requires AllIoOk(calls) && PrunedUpTo(calls, c)
    ensures After(Times(Run(max, calls), pod), c) == After(History(max, calls, pod), c)
    decreases |calls|
  {
    if calls != [] {
      var n := |calls| - 1;
      StateAgreesWithHistory(max, calls[..n], pod, c);
      CallAgrees(max, Run(max, calls[..n]), History(max, calls[..n], pod), calls[n], pod, c);
    }
  }

  lemma CallAgrees(max: U32, events: Events, history: seq<int>, call: Call, pod: Pod, c: int)
    requires call.io == IoOk && (call.Check? ==> call.now - WINDOW <= c)
    requires After(Times(events, pod), c) == After(history, c)
    ensures After(Times(Apply(events, max, call), pod), c) == After(NextHistory(max, events, history, call, pod), c)
  {
    if max != 0 {
      match call
      case Check(q, now, _) => CheckAgrees(max, events, history, q, now, pod, c);
      case Refund(q, at, _) =>
        TimesRefunded(events, max, q, at, pod);
        AfterWithoutLast(Times(events, pod), at, c);
        AfterWithoutLast(history, at, c);
    }
  }

  lemma CheckAgrees(max: U32, events: Events, history: seq<int>, q: Pod, now: int, pod: Pod, c: int)
    requires max > 0 && now - WINDOW <= c && After(Times(events, pod), c) == After(history, c)
    ensures After(Times(CheckedEvents(events, max, q, now), pod), c)
         == After(NextHistory(max, events, history, Check(q, now, IoOk), pod), c)
  {
    var kept := After(Times(events, pod), now - WINDOW);
    TimesChecked(events, max, q, now, pod);
    AfterAfter(Times(events, pod), now - WINDOW, c);
    if q == pod && Decide(events, max, pod, now).Allowed? {
      AfterPush(kept, now, c);
      AfterPush(history, now, c);
    } else {
      assert kept + [] == kept;
    }
  }

  lemma {:induction false} UnlimitedRecordsNothing(calls: seq<Call>)
    ensures Run(0, calls) == map[]
  {
    if calls != [] {
      UnlimitedRecordsNothing(calls[..|calls| - 1]);
    }
  }

  // ----- refinement of an unpruned reference limiter, and isolation -----

  /** The reference's step: it looks at the pod's own history and nothing else. */
  function NextReference(max: U32, history: seq<int>, call: Call, pod: Pod): seq<int> {
    if max == 0 || call.pod != pod then history
    else match call
      case Check(_, now, _) => if ReferenceDecision(history, max, now).Allowed? then history + [now] else history
      case Refund(_, at, _) => WithoutLast(history, at)
  }

  /** The reference: one pod's history, computed from that pod's own calls alone. */
  function ReferenceHistory(max: U32, calls: seq<Call>, pod: Pod): seq<int> {
    if calls == [] then []
    else NextReference(max, ReferenceHistory(max, calls[..|calls| - 1], pod), calls[|calls| - 1], pod)
  }

  /** Scan the whole history for uploads within the window. */
  function ReferenceDecision(history: seq<int>, max: U32, now: int): Decision {
    var recent := Saturate(|After(history, now - WINDOW)|);
    if max != 0 && recent >= max then Suppressed(recent) else Allowed
  }

  /** No check ran before one of `pod`'s checks with a later timestamp than it. */
  ghost predicate ClockInOrderFor(calls: seq<Call>, pod: Pod) {
    forall i, j :: 0 <= i < j < |calls| && calls[i].Check? && calls[j].Check? && calls[j].pod == pod
                   ==> calls[i].now <= calls[j].now
  }

  lemma NextIsReference(max: U32, events: Events, history: seq<int>, call: Call, pod: Pod)
    requires call.io == IoOk
    requires call.Check? && call.pod == pod ==>
               After(Times(events, pod), call.now - WINDOW) == After(history, call.now - WINDOW)
    ensures NextHistory(max, events, history, call, pod) == NextReference(max, history, call, pod)
  {
  }

  lemma {:induction false} HistoryIsReference(max: U32, calls: seq<Call>, pod: Pod)
    requires AllIoOk(calls) && ClockInOrderFor(calls, pod)
    ensures History(max, calls, pod) == ReferenceHistory(max, calls, pod)
    decreases |calls|
  {
    if calls != [] {
      var n := |calls| - 1;
      HistoryIsReference(max, calls[..n], pod);
      LastCallIsReference(max, calls, pod);
    }
  }

  lemma LastCallIsReference(max: U32, calls: seq<Call>, pod: Pod)
    requires calls != [] && AllIoOk(calls) && ClockInOrderFor(calls, pod)
    ensures History(max, calls, pod) == NextReference(max, History(max, calls[..|calls| - 1], pod),
                                                      calls[|calls| - 1], pod)
  {
    var n := |calls| - 1;
    var events, history, call := Run(max, calls[..n]), History(max, calls[..n], pod), calls[n];
    if call.Check? && call.pod == pod {
      StateAgreesWithHistory(max, calls[..n], pod, call.now - WINDOW);
    }
    NextIsReference(max, events, history, call, pod);
  }

  /** Every decision, and the count it reports, is what the reference gives. */
  lemma RefinesReference(max: U32, calls: seq<Call>, i: nat)
    requires AllIoOk(calls) && i < |calls| && calls[i].Check? && ClockInOrderFor(calls, calls[i].pod)
    ensures DecisionAt(max, calls, i)
         == ReferenceDecision(ReferenceHistory(max, calls[..i], calls[i].pod), max, calls[i].now)
  {
    if max != 0 {
      HistoryIsReference(max, calls[..i], calls[i].pod);
      StateAgreesWithHistory(max, calls[..i], calls[i].pod, calls[i].now - WINDOW);
    }
  }

  /** The run with every other pod's calls deleted. */
  function Only(calls: seq<Call>, pod: Pod): (own: seq<Call>)
    ensures forall i :: 0 <= i < |own| ==> own[i].pod == pod && own[i] in calls
  {
    if calls == [] then []
    else
      var n := |calls| - 1;
      if calls[n].pod == pod then Only(calls[..n], pod) + [calls[n]] else Only(calls[..n], pod)
  }

  lemma {:induction false} OnlySplits(calls: seq<Call>, i: nat, pod: Pod)
    requires i < |calls| && calls[i].pod == pod
    ensures |Only(calls[..i], pod)| < |Only(calls, pod)|
    ensures Only(calls, pod)[|Only(calls[..i], pod)|] == calls[i]
    ensures Only(calls, pod)[..|Only(calls[..i], pod)|] == Only(calls[..i], pod)
    decreases |calls|
  {
    var n := |calls| - 1;
    if i < n {
      assert calls[..n][..i] == calls[..i];
      OnlySplits(calls[..n], i, pod);
    }
  }

  lemma {:induction false} OnlyKeepsOrder(calls: seq<Call>, pod: Pod)
    requires ClockInOrderFor(calls, pod)
    ensures ClockInOrderFor(Only(calls, pod), pod)
    decreases |calls|
  {
    if calls != [] {
      OnlyKeepsOrder(calls[..|calls| - 1], pod);
    }
  }

  lemma {:induction false} ReferenceIsolates(max: U32, calls: seq<Call>, pod: Pod)
    ensures ReferenceHistory(max, Only(calls, pod), pod) == ReferenceHistory(max, calls, pod)
    decreases |calls|
  {
    if calls != [] {
      var n := |calls| - 1;
      ReferenceIsolates(max, calls[..n], pod);
      if calls[n].pod == pod {
        var own := Only(calls[..n], pod);
        assert (own + [calls[n]])[..|own|] == own;
      }
    }
  }

  /**
   Pod isolation: although every check prunes every pod's list, a pod is answered as if no
   other pod had ever crashed.
   */
  lemma PodsAreIsolated(max: U32, calls: seq<Call>, i: nat)
    requires AllIoOk(calls) && i < |calls| && calls[i].Check? && ClockInOrderFor(calls, calls[i].pod)
    ensures var pod := calls[i].pod;
            var k := |Only(calls[..i], pod)|;
            k < |Only(calls, pod)| && Only(calls, pod)[k] == calls[i]
            && DecisionAt(max, calls, i) == DecisionAt(max, Only(calls, pod), k)
  {
    var pod := calls[i].pod;
    OnlySplits(calls, i, pod);
    OnlyKeepsOrder(calls, pod);
    RefinesReference(max, calls, i);
    RefinesReference(max, Only(calls, pod), |Only(calls[..i], pod)|);
    ReferenceIsolates(max, calls[..i], pod);
  }

  // ----- the budget as a bound on every window -----

  function CountIn(times: seq<int>, lo: int, hi: int): nat {
    if times == [] then 0
    else CountIn(times[..|times| - 1], lo, hi) + if lo <= times[|times| - 1] < hi then 1 else 0
  }

  /** Timestamps reach the lock at most `d` seconds out of order. */
  ghost predicate OutOfOrderBy(calls: seq<Call>, d: nat) {
    forall i, j :: 0 <= i < j < |calls| && calls[i].Check? && calls[j].Check? ==> calls[i].now <= calls[j].now + d
  }

  lemma {:induction false} CountWithinAfter(times: seq<int>, lo: int, hi: int, c: int)
    requires c < lo
    ensures CountIn(times, lo, hi) <= |After(times, c)|
  {
    if times != [] {
      CountWithinAfter(times[..|times| - 1], lo, hi, c);
    }
  }

  lemma {:induction false} RefundLowersCount(times: seq<int>, t: int, lo: int, hi: int)
    ensures CountIn(WithoutLast(times, t), lo, hi) <= CountIn(times, lo, hi)
  {
    if times != [] {
      var n := |times| - 1;
      RefundLowersCount(times[..n], t, lo, hi);
      var rest := WithoutLast(times[..n], t);
      assert (rest + [times[n]])[..|rest|] == rest;
    }
  }

  /** An admission finds fewer than `max` others in any window it falls into. */
  lemma RoomInWindow(max: U32, events: Events, history: seq<int>, pod: Pod, now: int, c: int, lo: int, hi: int)
    requires max > 0 && Decide(events, max, pod, now).Allowed? && now - WINDOW <= c < lo
    requires After(Times(events, pod), c) == After(history, c)
    ensures CountIn(history, lo, hi) < max
  {
    CountWithinAfter(history, lo, hi, c);
    AfterShrinks(Times(events, pod), now - WINDOW, c);
  }

  /** `c` is where the state and the history are known to agree. */
  lemma CountNext(max: U32, events: Events, history: seq<int>, call: Call, pod: Pod, d: nat, lo: int)
    requires max > 0 && call.io == IoOk && CountIn(history, lo, lo + WINDOW - d) <= max
    requires call.Check? ==>
               var c := call.now - WINDOW + d;
               After(Times(events, pod), c) == After(history, c)
    ensures CountIn(NextHistory(max, events, history, call, pod), lo, lo + WINDOW - d) <= max
  {
    var hi := lo + WINDOW - d;
    match call
    case Check(q, now, _) =>
      assert (history + [now])[..|history|] == history;
      if q == pod && lo <= now < hi && Decide(events, max, pod, now).Allowed? {
        RoomInWindow(max, events, history, pod, now, now - WINDOW + d, lo, hi);
      }
    case Refund(q, at, _) =>
      RefundLowersCount(history, at, lo, hi);
  }

  lemma {:induction false} AtMostBudget(max: U32, calls: seq<Call>, pod: Pod, d: nat, lo: int)
    requires max > 0 && AllIoOk(calls) && OutOfOrderBy(calls, d)
    ensures CountIn(History(max, calls, pod), lo, lo + WINDOW - d) <= max
    decreases |calls|
  {
    if calls != [] {
      var n := |calls| - 1;
      var before, last := calls[..n], calls[n];
      AtMostBudget(max, before, pod, d, lo);
      if last.Check? {
        StateAgreesWithHistory(max, before, pod, last.now - WINDOW + d);
      }
      CountNext(max, Run(max, before), History(max, before, pod), last, pod, d, lo);
    }
  }

  /**
   In every interleaving whose timestamps are at most `d` seconds out of order at the lock, a
   window of `3600 - d` seconds never holds more than `max` admissions that were not refunded.
   */
  lemma WindowBound(max: U32, calls: seq<Call>, pod: Pod, d: nat, lo: int)
    requires max > 0 && AllIoOk(calls) && OutOfOrderBy(calls, d)
    ensures CountIn(History(max, calls, pod), lo, lo + 3600 - d) <= max
  {
    AtMostBudget(max, calls, pod, d, lo);
  }

  // ----- neither the bound nor isolation survives more disorder -----

  function Repeat(k: nat, t: int): (times: seq<int>)
    ensures |times| == k && forall i :: 0 <= i < k ==> times[i] == t
  {
    if k == 0 then [] else Repeat(k - 1, t) + [t]
  }

  /** `k` crashes of `pod` in the second `t`. */
  function Burst(pod: Pod, k: nat, t: int): (calls: seq<Call>)
    ensures |calls| == k && forall i :: 0 <= i < k ==> calls[i] == Check(pod, t, IoOk)
  {
    seq(k, _ => Check(pod, t, IoOk))
  }

  lemma {:induction false} RepeatAfter(k: nat, t: int, c: int)
    ensures After(Repeat(k, t), c) == if t > c then Repeat(k, t) else []
  {
    if k > 0 {
      RepeatAfter(k - 1, t, c);
      AfterPush(Repeat(k - 1, t), t, c);
    }
  }

  lemma {:induction false} RepeatCount(k: nat, t: int, lo: int, hi: int)
    requires lo <= t < hi
    ensures CountIn(Repeat(k, t), lo, hi) == k
  {
    if k > 0 {
      RepeatCount(k - 1, t, lo, hi);
      assert (Repeat(k - 1, t) + [t])[..k - 1] == Repeat(k - 1, t);
    }
  }

  lemma OneMoreCounted(k: nat, t: int, late: int)
    requires t <= late
    ensures CountIn(Repeat(k, t) + [late], t, late + 1) == k + 1
  {
    RepeatCount(k, t, t, late + 1);
    assert (Repeat(k, t) + [late])[..k] == Repeat(k, t);
  }

  lemma RunAppend(max: U32, calls: seq<Call>, call: Call, pod: Pod)
    ensures Run(max, calls + [call]) == Apply(Run(max, calls), max, call)
    ensures History(max, calls + [call], pod)
         == NextHistory(max, Run(max, calls), History(max, calls, pod), call, pod)
  {
    assert (calls + [call])[..|calls|] == calls;
  }

  lemma LastDecision(max: U32, calls: seq<Call>, call: Call)
    requires call.Check? && call.io == IoOk
    ensures DecisionAt(max, calls + [call], |calls|) == Decide(Run(max, calls), max, call.pod, call.now)
  {
    assert (calls + [call])[..|calls|] == calls;
  }

  lemma BurstStep(max: U32, events: Events, pod: Pod, k: nat, t: int, q: Pod)
    requires k < max && Times(events, pod) == Repeat(k, t) && (q != pod ==> Times(events, q) == [])
    ensures Decide(events, max, pod, t) == Allowed
    ensures Times(CheckedEvents(events, max, pod, t), q) == if q == pod then Repeat(k + 1, t) else []
  {
    RepeatAfter(k, t, t - WINDOW);
    TimesChecked(events, max, pod, t, q);
  }

  /** A burst within the budget is admitted whole. */
  lemma {:induction false} BurstAdmitted(max: U32, pod: Pod, k: nat, t: int, q: Pod)
    requires max > 0 && k <= max
    ensures Times(Run(max, Burst(pod, k, t)), pod) == Repeat(k, t)
    ensures History(max, Burst(pod, k, t), pod) == Repeat(k, t)
    ensures q != pod ==> Times(Run(max, Burst(pod, k, t)), q) == []
  {
    if k > 0 {
      var before := Burst(pod, k - 1, t);
      assert Burst(pod, k, t) == before + [Check(pod, t, IoOk)];
      BurstAdmitted(max, pod, k - 1, t, q);
      BurstStep(max, Run(max, before), pod, k - 1, t, pod);
      BurstStep(max, Run(max, before), pod, k - 1, t, q);
      RunAppend(max, before, Check(pod, t, IoOk), pod);
    }
  }

  /** The full burst, another pod an hour later, and the burst's pod once more, `d` seconds behind. */
  function LateRun(a: Pod, b: Pod, max: U32, lo: int, d: nat): seq<Call> {
    OtherAfter(Burst(a, max, lo), b, lo) + [Check(a, lo + WINDOW - d, IoOk)]
  }

  /** The same without the other pod. */
  function OwnRun(a: Pod, max: U32, lo: int, d: nat): (calls: seq<Call>)
    ensures |calls| == max + 1 && calls[max] == Check(a, lo + WINDOW - d, IoOk)
  {
    Burst(a, max, lo) + [Check(a, lo + WINDOW - d, IoOk)]
  }

  function OtherAfter(burst: seq<Call>, b: Pod, lo: int): seq<Call> {
    burst + [Check(b, lo + WINDOW, IoOk)]
  }

  /** A check of another pod a full window later prunes the whole burst. */
  lemma BurstPruned(max: U32, events: Events, a: Pod, b: Pod, k: nat, t: int)
    requires max > 0 && a != b && Times(events, a) == Repeat(k, t)
    ensures Times(CheckedEvents(events, max, b, t + WINDOW), a) == []
  {
    TimesChecked(events, max, b, t + WINDOW, a);
    RepeatAfter(k, t, t);
  }

  lemma EmptyListAdmits(events: Events, max: U32, pod: Pod, now: int)
    requires Times(events, pod) == []
    ensures Decide(events, max, pod, now) == Allowed
  {
  }

  /** The other pod's later timestamp prunes the burst and leaves the history alone. */
  lemma OtherPrunes(max: U32, burst: seq<Call>, a: Pod, b: Pod, lo: int)
    requires a != b && max > 0
    requires Times(Run(max, burst), a) == History(max, burst, a) == Repeat(max, lo)
    ensures Times(Run(max, OtherAfter(burst, b, lo)), a) == []
    ensures History(max, OtherAfter(burst, b, lo), a) == Repeat(max, lo)
  {
    RunAppend(max, burst, Check(b, lo + WINDOW, IoOk), a);
    BurstPruned(max, Run(max, burst), a, b, max, lo);
  }

  lemma NextAdmitted(max: U32, calls: seq<Call>, pod: Pod, now: int)
    requires max > 0 && Times(Run(max, calls), pod) == []
    ensures DecisionAt(max, calls + [Check(pod, now, IoOk)], |calls|) == Allowed
    ensures History(max, calls + [Check(pod, now, IoOk)], pod) == History(max, calls, pod) + [now]
  {
    EmptyListAdmits(Run(max, calls), max, pod, now);
    LastDecision(max, calls, Check(pod, now, IoOk));
    RunAppend(max, calls, Check(pod, now, IoOk), pod);
  }

  /** So the last check finds room again. */
  lemma LateRunAdmits(a: Pod, b: Pod, max: U32, lo: int, d: nat)
    requires a != b && max > 0
    ensures |LateRun(a, b, max, lo, d)| == max + 2
            && LateRun(a, b, max, lo, d)[max + 1] == Check(a, lo + WINDOW - d, IoOk)
    ensures DecisionAt(max, LateRun(a, b, max, lo, d), max + 1) == Allowed
    ensures History(max, LateRun(a, b, max, lo, d), a) == Repeat(max, lo) + [lo + WINDOW - d]
  {
    BurstAdmitted(max, a, max, lo, a);
    OtherPrunes(max, Burst(a, max, lo), a, b, lo);
    NextAdmitted(max, OtherAfter(Burst(a, max, lo), b, lo), a, lo + WINDOW - d);
  }

  lemma LateRunOrder(a: Pod, b: Pod, max: U32, lo: int, d: nat)
    requires d <= WINDOW
    ensures AllIoOk(LateRun(a, b, max, lo, d)) && OutOfOrderBy(LateRun(a, b, max, lo, d), d)
  {
  }

  /**
   The bound is tight for every budget, every amount of disorder and every window: one second more,
   and some run within the disorder has `max + 1` admissions in it.
   */
  lemma WindowBoundIsTight(a: Pod, b: Pod, max: U32, lo: int, d: nat)
    requires a != b && max > 0 && d <= 3600
    ensures AllIoOk(LateRun(a, b, max, lo, d)) && OutOfOrderBy(LateRun(a, b, max, lo, d), d)
    ensures CountIn(History(max, LateRun(a, b, max, lo, d), a), lo, lo + 3600 - d + 1) == max + 1
  {
    LateRunOrder(a, b, max, lo, d);
    LateRunAdmits(a, b, max, lo, d);
    OneMoreCounted(max, lo, lo + WINDOW - d);
  }

  lemma {:induction false} OnlyOwn(calls: seq<Call>, pod: Pod)
    requires forall i :: 0 <= i < |calls| ==> calls[i].pod == pod
    ensures Only(calls, pod) == calls
  {
    if calls != [] {
      OnlyOwn(calls[..|calls| - 1], pod);
    }
  }

  lemma OnlyAppend(calls: seq<Call>, call: Call, pod: Pod)
    ensures Only(calls + [call], pod) == Only(calls, pod) + if call.pod == pod then [call] else []
  {
    assert (calls + [call])[..|calls|] == calls;
  }

  /**
   Isolation does need the clock: for every budget and any disorder at all, another pod's later
   timestamp gets a pod's crash admitted that would be suppressed if the other pod did not exist.
   */
  lemma IsolationNeedsTheClock(a: Pod, b: Pod, max: U32, lo: int, d: nat)
    requires a != b && max > 0 && 0 < d <= WINDOW
    ensures OutOfOrderBy(LateRun(a, b, max, lo, d), d)
    ensures |LateRun(a, b, max, lo, d)| == max + 2
            && LateRun(a, b, max, lo, d)[max + 1] == Check(a, lo + WINDOW - d, IoOk)
    ensures DecisionAt(max, LateRun(a, b, max, lo, d), max + 1) == Allowed
    ensures Only(LateRun(a, b, max, lo, d), a) == OwnRun(a, max, lo, d)
    ensures DecisionAt(max, OwnRun(a, max, lo, d), max) == Suppressed(max)
  {
    LateRunOrder(a, b, max, lo, d);
    LateRunAdmits(a, b, max, lo, d);
    LateRunOnly(a, b, max, lo, d);
    FullBurstSuppresses(a, max, lo, d);
  }

  lemma LateRunOnly(a: Pod, b: Pod, max: U32, lo: int, d: nat)
    requires a != b
    ensures Only(LateRun(a, b, max, lo, d), a) == OwnRun(a, max, lo, d)
  {
    var burst := Burst(a, max, lo);
    OnlyOwn(burst, a);
    OnlyAppend(burst, Check(b, lo + WINDOW, IoOk), a);
    OnlyAppend(OtherAfter(burst, b, lo), Check(a, lo + WINDOW - d, IoOk), a);
  }

  lemma FullWindowSuppresses(events: Events, max: U32, pod: Pod, now: int)
    requires max > 0 && |After(Times(events, pod), now - WINDOW)| == max
    ensures Decide(events, max, pod, now) == Suppressed(max)
  {
  }

  lemma FullListSuppresses(max: U32, events: Events, pod: Pod, t: int, now: int)
    requires max > 0 && now < t + WINDOW && Times(events, pod) == Repeat(max, t)
    ensures Decide(events, max, pod, now) == Suppressed(max)
  {
    assert |After(Times(events, pod), now - WINDOW)| == max by {
      RepeatAfter(max, t, now - WINDOW);
    }
    FullWindowSuppresses(events, max, pod, now);
  }

  /**
   A budget that is used up within one second lasts for an hour: from then on, a crash of the pod is
   suppressed until 3600 seconds have passed, and admitted after that.
   */
  lemma BudgetLastsAnHour(pod: Pod, max: U32, t: int, now: int)
    requires max > 0 && t <= now
    ensures DecisionAt(max, Burst(pod, max, t) + [Check(pod, now, IoOk)], max)
         == if now < t + 3600 then Suppressed(max) else Allowed
  {
    var burst := Burst(pod, max, t);
    var events := Run(max, burst);
    assert Times(events, pod) == Repeat(max, t) by {
      BurstAdmitted(max, pod, max, t, pod);
    }
    DecidesByAge(max, events, pod, t, now);
    LastDecision(max, burst, Check(pod, now, IoOk));
  }

  lemma DecidesByAge(max: U32, events: Events, pod: Pod, t: int, now: int)
    requires max > 0 && Times(events, pod) == Repeat(max, t)
    ensures Decide(events, max, pod, now) == if now < t + 3600 then Suppressed(max) else Allowed
  {
    if now < t + 3600 {
      FullListSuppresses(max, events, pod, t, now);
    } else {
      assert |After(Times(events, pod), now - WINDOW)| == 0 by {
        RepeatAfter(max, t, now - WINDOW);
      }
    }
  }

  lemma OwnRunDecision(a: Pod, max: U32, lo: int, d: nat)
    ensures DecisionAt(max, OwnRun(a, max, lo, d), max) == Decide(Run(max, Burst(a, max, lo)), max, a, lo + WINDOW - d)
  {
    assert OwnRun(a, max, lo, d)[..max] == Burst(a, max, lo);
  }

  lemma FullBurstSuppresses(a: Pod, max: U32, lo: int, d: nat)
    requires max > 0 && 0 < d
    ensures DecisionAt(max, OwnRun(a, max, lo, d), max) == Suppressed(max)
  {
    var events := Run(max, Burst(a, max, lo));
    assert Times(events, a) == Repeat(max, lo) by {
      BurstAdmitted(max, a, max, lo, a);
    }
    FullListSuppresses(max, events, a, lo, lo + WINDOW - d);
    OwnRunDecision(a, max, lo, d);
  }

  /** With any timestamps and any IO failures, no stored list exceeds the budget. */
  lemma {:induction false} StoredListsStayWithinBudget(max: U32, calls: seq<Call>, pod: Pod)
    ensures |Times(Run(max, calls), pod)| <= max
    decreases |calls|
  {
    if calls == [] {
    } else if max == 0 {
      UnlimitedRecordsNothing(calls);
    } else {
      var n := |calls| - 1;
      StoredListsStayWithinBudget(max, calls[..n], pod);
      CallKeepsBudget(Run(max, calls[..n]), max, calls[n], pod);
    }
  }

  lemma CallKeepsBudget(events: Events, max: U32, call: Call, pod: Pod)
    requires max > 0 && |Times(events, pod)| <= max
    ensures |Times(Apply(events, max, call), pod)| <= max
  {
    var times := Times(events, pod);
    match call
    case Check(q, now, io) =>
      TimesChecked(events, max, q, now, pod);
      AfterShrinks(times, now - WINDOW, now - WINDOW);
    case Refund(q, at, io) =>
      TimesRefunded(events, max, q, at, pod);
      WithoutLastShrinks(times, at);
  }

  lemma {:induction false} WithoutLastShrinks(times: seq<int>, t: int)
    ensures |WithoutLast(times, t)| <= |times|
  {
    if times != [] {
      WithoutLastShrinks(times[..|times| - 1], t);
    }
  }

  // ----- refunds of slots that were never recorded -----

  ghost predicate NoEmptyLists(events: Events) {
    forall p :: p in events ==> events[p] != []
  }

  lemma {:induction false} RunHasNoEmptyLists(max: U32, calls: seq<Call>)
    ensures NoEmptyLists(Run(max, calls))
  {
    if calls != [] {
      RunHasNoEmptyLists(max, calls[..|calls| - 1]);
    }
  }

  lemma {:induction false} WithoutLastAbsent(times: seq<int>, t: int)
    ensures WithoutLast(times, t) == times <==> t !in times
  {
    if times != [] {
      var n := |times| - 1;
      WithoutLastAbsent(times[..n], t);
      WithoutLastShrinks(times[..n], t);
      assert times == times[..n] + [times[n]];
      if t in times && times[n] != t {
        assert t in times[..n];
        var rest := WithoutLast(times[..n], t);
        assert (rest + [times[n]])[..|rest|] == rest;
      }
    }
  }

  /**
   Refunds carry no proof of a recorded slot. After any calls, failed IO included, a refund leaves the
   state file as it was if and only if the pod's stored list does not hold its timestamp; otherwise it
   removes one entry with that timestamp, whoever recorded it. Other pods are never touched.
   */
  lemma RefundIsHarmlessIff(max: U32, calls: seq<Call>, pod: Pod, at: int)
    requires max > 0
    ensures Run(max, calls + [Refund(pod, at, IoOk)]) == Run(max, calls) <==> at !in Times(Run(max, calls), pod)
    ensures multiset(Times(Run(max, calls + [Refund(pod, at, IoOk)]), pod))
         == multiset(Times(Run(max, calls), pod)) - multiset{at}
    ensures forall q :: q != pod ==> Times(Run(max, calls + [Refund(pod, at, IoOk)]), q) == Times(Run(max, calls), q)
  {
    var events := Run(max, calls);
    RunAppend(max, calls, Refund(pod, at, IoOk), pod);
    RunHasNoEmptyLists(max, calls);
    RefundedEventsIff(events, max, pod, at);
    TimesRefunded(events, max, pod, at, pod);
    WithoutLastMultiset(Times(events, pod), at);
  }

  lemma RefundedEventsIff(events: Events, max: U32, pod: Pod, at: int)
    requires max > 0 && NoEmptyLists(events)
    ensures RefundedEvents(events, max, pod, at) == events <==> at !in Times(events, pod)
  {
    WithoutLastAbsent(Times(events, pod), at);
    TimesRefunded(events, max, pod, at, pod);
  }
}
