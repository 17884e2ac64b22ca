/**
 The limiter when its file IO fails: it answers yes, so the bound of its runs is exceeded, by how much
 and no more.
 */
module LimiterFailures {
  import opened RateLimit
  import opened LimiterRuns

  // ----- how far failing IO can exceed the bound -----

  /**
   What failing IO may cost a pod: one admission for each of its checks that fails open, and a whole
   budget for each lost write, whoever's it was.
   */
  function Slack(max: U32, calls: seq<Call>, pod: Pod): nat {
    if calls == [] then 0
    else Slack(max, calls[..|calls| - 1], pod) + CallSlack(max, calls[|calls| - 1], pod)
  }

  function CallSlack(max: U32, call: Call, pod: Pod): nat {
    (if call.Check? && call.pod == pod && call.io != IoOk then 1 else 0) + (if call.io == LostWrite then max else 0)
  }

  lemma TakeOne(a: multiset<int>, b: multiset<int>, x: multiset<int>, t: int)
    requires a <= b + x
    ensures a - multiset{t} <= b + x && a - multiset{t} <= (b - multiset{t}) + x
    ensures a + multiset{t} <= (b + multiset{t}) + x && a + multiset{t} <= b + (x + multiset{t})
  {
    assert forall k :: a[k] <= (b + x)[k];
  }

  /** Past `c`, the history is covered by the stored list and the extras. */
  ghost predicate Covered(events: Events, history: seq<int>, pod: Pod, c: int, extras: multiset<int>) {
    multiset(After(history, c)) <= multiset(After(Times(events, pod), c)) + extras
  }

  lemma GoodCheckCovered(max: U32, events: Events, history: seq<int>, q: Pod, now: int, pod: Pod, c: int,
                         extras: multiset<int>)
    requires max > 0 && now - WINDOW <= c && Covered(events, history, pod, c, extras)
    ensures Covered(CheckedEvents(events, max, q, now),
                    NextHistory(max, events, history, Check(q, now, IoOk), pod), pod, c, extras)
  {
    var stored := Times(events, pod);
    var kept := After(stored, now - WINDOW);
    TimesChecked(events, max, q, now, pod);
    AfterAfter(stored, now - WINDOW, c);
    if q == pod && Decide(events, max, pod, now).Allowed? {
      AfterPush(kept, now, c);
      AfterPush(history, now, c);
      TakeOne(multiset(After(history, c)), multiset(After(stored, c)), extras, now);
    } else {
      assert kept + [] == kept;
    }
  }

  lemma GoodRefundCovered(max: U32, events: Events, history: seq<int>, at: int, pod: Pod, c: int, extras: multiset<int>)
    requires max > 0 && Covered(events, history, pod, c, extras)
    ensures Covered(RefundedEvents(events, max, pod, at), WithoutLast(history, at), pod, c, extras)
  {
    TimesRefunded(events, max, pod, at, pod);
    RefundCovers(history, at, c);
    RefundCovers(Times(events, pod), at, c);
    TakeOne(multiset(After(history, c)), multiset(After(Times(events, pod), c)), extras, at);
  }

  lemma GoodCallCovered(max: U32, events: Events, history: seq<int>, call: Call, pod: Pod, c: int,
                        extras: multiset<int>)
    requires max > 0 && call.io == IoOk && (call.Check? ==> call.now - WINDOW <= c)
    requires Covered(events, history, pod, c, extras)
    ensures Covered(Apply(events, max, call), NextHistory(max, events, history, call, pod), pod, c, extras)
  {
    match call
    case Check(q, now, _) => GoodCheckCovered(max, events, history, q, now, pod, c, extras);
    case Refund(q, at, _) =>
      if q == pod {
        GoodRefundCovered(max, events, history, at, pod, c, extras);
      } else {
        TimesRefunded(events, max, q, at, pod);
      }
  }

  lemma RefundCovers(times: seq<int>, at: int, c: int)
    ensures multiset(After(WithoutLast(times, at), c))
         == if at > c then multiset(After(times, c)) - multiset{at} else multiset(After(times, c))
  {
    AfterWithoutLast(times, at, c);
    WithoutLastMultiset(After(times, c), at);
  }

  /** What a failed call does to the history alone. */
  lemma FailedCallHistory(max: U32, events: Events, history: seq<int>, call: Call, pod: Pod, c: int)
    requires max > 0 && call.io != IoOk
    ensures multiset(After(NextHistory(max, events, history, call, pod), c))
            <= multiset(After(history, c)) + (if call.Check? && call.pod == pod then multiset{call.now} else multiset{})
  {
    match call
    case Check(_, now, _) => AfterPush(history, now, c);
    case Refund(_, at, _) => RefundCovers(history, at, c);
  }

  lemma FailedCallCovered(max: U32, events: Events, history: seq<int>, call: Call, pod: Pod, c: int,
                          extras: multiset<int>) returns (more: multiset<int>)
    requires max > 0 && call.io != IoOk && Covered(events, history, pod, c, extras) && |Times(events, pod)| <= max
    ensures Covered(Apply(events, max, call), NextHistory(max, events, history, call, pod), pod, c, more)
    ensures |more| <= |extras| + CallSlack(max, call, pod)
  {
    var own := if call.Check? && call.pod == pod then multiset{call.now} else multiset{};
    var lost := if call.io == LostWrite then multiset(After(Times(events, pod), c)) else multiset{};
    more := extras + own + lost;
    FailedCallHistory(max, events, history, call, pod, c);
    AfterShrinks(Times(events, pod), c, c);
  }

  lemma {:induction false} HistoryIsCovered(max: U32, calls: seq<Call>, pod: Pod, c: int)
    returns (extras: multiset<int>)
    requires max > 0 && PrunedUpTo(calls, c)
    ensures Covered(Run(max, calls), History(max, calls, pod), pod, c, extras) && |extras| <= Slack(max, calls, pod)
    decreases |calls|
  {
    if calls == [] {
      extras := multiset{};
    } else {
      var n := |calls| - 1;
      extras := HistoryIsCovered(max, calls[..n], pod, c);
      var events, history := Run(max, calls[..n]), History(max, calls[..n], pod);
      if calls[n].io == IoOk {
        GoodCallCovered(max, events, history, calls[n], pod, c, extras);
      } else {
        StoredListsStayWithinBudget(max, calls[..n], pod);
        extras := FailedCallCovered(max, events, history, calls[n], pod, c, extras);
      }
    }
  }

  lemma SubsetCardinality(a: multiset<int>, b: multiset<int>, x: multiset<int>)
    requires a <= b + x
    ensures |a| <= |b| + |x|
  {
    assert b + x == a + ((b + x) - a);
    assert |b + x| == |b| + |x|;
  }

  /** How many entries past `c` the history may have that the stored list lacks. */
  lemma UncoveredAtMostSlack(max: U32, calls: seq<Call>, pod: Pod, c: int)
    requires max > 0 && PrunedUpTo(calls, c)
    ensures |After(History(max, calls, pod), c)| <= |After(Times(Run(max, calls), pod), c)| + Slack(max, calls, pod)
  {
    var extras := HistoryIsCovered(max, calls, pod, c);
    var a, b := After(History(max, calls, pod), c), After(Times(Run(max, calls), pod), c);
    SubsetCardinality(multiset(a), multiset(b), extras);
    assert |multiset(a)| == |a| && |multiset(b)| == |b|;
  }

  lemma CountPush(times: seq<int>, t: int, lo: int, hi: int)
    ensures CountIn(times + [t], lo, hi) == CountIn(times, lo, hi) + if lo <= t < hi then 1 else 0
  {
    assert (times + [t])[..|times|] == times;
  }

  /** An admission finds fewer than `max` others in its window, those the list lacks aside. */
  lemma RoomDespiteFailures(max: U32, events: Events, history: seq<int>, pod: Pod, now: int, c: int, lo: int, hi: int,
                            slack: nat)
    requires max > 0 && Decide(events, max, pod, now).Allowed? && now - WINDOW <= c < lo
    requires |After(history, c)| <= |After(Times(events, pod), c)| + slack
    ensures CountIn(history, lo, hi) < max + slack
  {
    CountWithinAfter(history, lo, hi, c);
    AfterShrinks(Times(events, pod), now - WINDOW, c);
  }

  lemma CountAdmission(max: U32, events: Events, history: seq<int>, call: Call, pod: Pod, d: nat, lo: int, slack: nat)
    requires max > 0 && call.Check? && call.io == IoOk && CountIn(history, lo, lo + WINDOW - d) <= max + slack
    requires var c := call.now - WINDOW + d; |After(history, c)| <= |After(Times(events, pod), c)| + slack
    ensures CountIn(NextHistory(max, events, history, call, pod), lo, lo + WINDOW - d) <= max + slack
  {
    var hi := lo + WINDOW - d;
    CountPush(history, call.now, lo, hi);
    if call.pod == pod && lo <= call.now < hi && Decide(events, max, pod, call.now).Allowed? {
      RoomDespiteFailures(max, events, history, pod, call.now, call.now - WINDOW + d, lo, hi, slack);
    }
  }

  /** A failed call or a refund, whatever the state. */
  lemma CountOther(max: U32, events: Events, history: seq<int>, call: Call, pod: Pod, lo: int, hi: int)
    requires call.Check? ==> call.io != IoOk
    ensures CountIn(NextHistory(max, events, history, call, pod), lo, hi)
            <= CountIn(history, lo, hi) + CallSlack(max, call, pod)
  {
    match call
    case Check(_, now, _) => CountPush(history, now, lo, hi);
    case Refund(_, at, _) => RefundLowersCount(history, at, lo, hi);
  }

  lemma CountNext(max: U32, events: Events, history: seq<int>, call: Call, pod: Pod, d: nat, lo: int, slack: nat)
    requires max > 0 && CountIn(history, lo, lo + WINDOW - d) <= max + slack
    requires call.Check? && call.io == IoOk ==>
               var c := call.now - WINDOW + d; |After(history, c)| <= |After(Times(events, pod), c)| + slack
    ensures CountIn(NextHistory(max, events, history, call, pod), lo, lo + WINDOW - d)
            <= max + slack + CallSlack(max, call, pod)
  {
    if call.Check? && call.io == IoOk {
      CountAdmission(max, events, history, call, pod, d, lo, slack);
    } else {
      CountOther(max, events, history, call, pod, lo, lo + WINDOW - d);
    }
  }

  /**
   The bound under any IO failures: a window of `3600 - d` seconds never holds more than `max`
   admissions that were not refunded, plus one for each check of the pod that failed open, plus
   `max` for each lost write.
   */
  lemma {:induction false} WindowBoundDespiteFailures(max: U32, calls: seq<Call>, pod: Pod, d: nat, lo: int)
    requires max > 0 && OutOfOrderBy(calls, d)
    ensures CountIn(History(max, calls, pod), lo, lo + 3600 - d) <= max + Slack(max, calls, pod)
    decreases |calls|
  {
    if calls != [] {
      var n := |calls| - 1;
      var before, last := calls[..n], calls[n];
      WindowBoundDespiteFailures(max, before, pod, d, lo);
      if last.Check? && last.io == IoOk {
        UncoveredAtMostSlack(max, before, pod, last.now - WINDOW + d);
      }
      CountNext(max, Run(max, before), History(max, before, pod), last, pod, d, lo, Slack(max, before, pod));
    }
  }

  // ----- and that far it does go -----

  /** `k` checks of `pod` in the second `t` that fail open. */
  function Failures(pod: Pod, k: nat, t: int, io: Io): (calls: seq<Call>)
    ensures |calls| == k && forall i :: 0 <= i < k ==> calls[i] == Check(pod, t, io)
  {
    seq(k, _ => Check(pod, t, io))
  }

  lemma SlackAppend(max: U32, calls: seq<Call>, call: Call, pod: Pod)
    ensures Slack(max, calls + [call], pod) == Slack(max, calls, pod) + CallSlack(max, call, pod)
  {
    assert (calls + [call])[..|calls|] == calls;
  }

  /** A failed check is counted whatever the state. */
  lemma FailureCounts(max: U32, calls: seq<Call>, pod: Pod, t: int, io: Io, lo: int, hi: int)
    requires max > 0 && io != IoOk && lo <= t < hi
    ensures CountIn(History(max, calls + [Check(pod, t, io)], pod), lo, hi)
         == CountIn(History(max, calls, pod), lo, hi) + 1
  {
    RunAppend(max, calls, Check(pod, t, io), pod);
    CountPush(History(max, calls, pod), t, lo, hi);
  }

  lemma {:induction false} NoSlack(max: U32, calls: seq<Call>, pod: Pod)
    requires AllIoOk(calls)
    ensures Slack(max, calls, pod) == 0
  {
    if calls != [] {
      NoSlack(max, calls[..|calls| - 1], pod);
    }
  }

  lemma BurstCounts(max: U32, pod: Pod, t: int)
    requires max > 0
    ensures CountIn(History(max, Burst(pod, max, t), pod), t, t + WINDOW) == max
    ensures Slack(max, Burst(pod, max, t), pod) == 0
  {
    BurstAdmitted(max, pod, max, t, pod);
    RepeatCount(max, t, t, t + WINDOW);
    NoSlack(max, Burst(pod, max, t), pod);
  }

  /** One more failed check after any calls. */
  lemma OneMoreFailure(max: U32, calls: seq<Call>, longer: seq<Call>, pod: Pod, t: int, io: Io)
    requires max > 0 && io != IoOk && longer == calls + [Check(pod, t, io)]
    ensures CountIn(History(max, longer, pod), t, t + WINDOW) == CountIn(History(max, calls, pod), t, t + WINDOW) + 1
    ensures Slack(max, longer, pod) == Slack(max, calls, pod) + 1 + if io == LostWrite then max else 0
    ensures io == LostWrite ==> Run(max, longer) == map[]
  {
    RunAppend(max, calls, Check(pod, t, io), pod);
    FailureCounts(max, calls, pod, t, io, t, t + WINDOW);
    SlackAppend(max, calls, Check(pod, t, io), pod);
  }

  /** Every failed check exceeds the budget by one more, for every budget and kind of failure. */
  lemma {:induction false} FailOpenExceedsTheBudget(max: U32, pod: Pod, t: int, k: nat, io: Io)
    requires max > 0 && io != IoOk
    ensures CountIn(History(max, Burst(pod, max, t) + Failures(pod, k, t, io), pod), t, t + 3600) == max + k
    ensures io == Unavailable ==> Slack(max, Burst(pod, max, t) + Failures(pod, k, t, io), pod) == k
  {
    var calls := Burst(pod, max, t) + Failures(pod, k, t, io);
    if k == 0 {
      assert calls == Burst(pod, max, t);
      BurstCounts(max, pod, t);
    } else {
      var before := Burst(pod, max, t) + Failures(pod, k - 1, t, io);
      assert calls == before + [Check(pod, t, io)];
      FailOpenExceedsTheBudget(max, pod, t, k - 1, io);
      OneMoreFailure(max, before, calls, pod, t, io);
    }
  }

  /** A check that finds a list of equal timestamps below the budget. */
  lemma BurstCall(max: U32, events: Events, history: seq<int>, pod: Pod, k: nat, t: int)
    requires k < max && Times(events, pod) == Repeat(k, t)
    ensures Times(Apply(events, max, Check(pod, t, IoOk)), pod) == Repeat(k + 1, t)
    ensures NextHistory(max, events, history, Check(pod, t, IoOk), pod) == history + [t]
  {
    BurstStep(max, events, pod, k, t, pod);
  }

  lemma OneMoreOfBurst(max: U32, calls: seq<Call>, longer: seq<Call>, pod: Pod, k: nat, t: int, hi: int)
    requires k < max && t < hi && Times(Run(max, calls), pod) == Repeat(k, t)
    requires longer == calls + [Check(pod, t, IoOk)]
    ensures Times(Run(max, longer), pod) == Repeat(k + 1, t)
    ensures CountIn(History(max, longer, pod), t, hi) == CountIn(History(max, calls, pod), t, hi) + 1
    ensures Slack(max, longer, pod) == Slack(max, calls, pod)
  {
    var events, history := Run(max, calls), History(max, calls, pod);
    BurstCall(max, events, history, pod, k, t);
    assert Run(max, longer) == Apply(events, max, Check(pod, t, IoOk))
        && History(max, longer, pod) == history + [t] by {
      RunAppend(max, calls, Check(pod, t, IoOk), pod);
    }
    CountPush(history, t, t, hi);
    SlackAppend(max, calls, Check(pod, t, IoOk), pod);
  }

  /** A burst after calls that left the pod's list empty. */
  lemma {:induction false} BurstAfter(max: U32, calls: seq<Call>, longer: seq<Call>, pod: Pod, k: nat, t: int, hi: int)
    requires max > 0 && k <= max && t < hi && Times(Run(max, calls), pod) == [] && longer == calls + Burst(pod, k, t)
    ensures Times(Run(max, longer), pod) == Repeat(k, t)
    ensures CountIn(History(max, longer, pod), t, hi) == CountIn(History(max, calls, pod), t, hi) + k
    ensures Slack(max, longer, pod) == Slack(max, calls, pod)
    decreases k
  {
    if k == 0 {
      assert longer == calls;
    } else {
      var before := calls + Burst(pod, k - 1, t);
      assert longer == before + [Check(pod, t, IoOk)];
      BurstAfter(max, calls, before, pod, k - 1, t, hi);
      OneMoreOfBurst(max, before, longer, pod, k - 1, t, hi);
    }
  }

  /** A full burst, then `n` times a check whose write is lost and another full burst. */
  function LostRounds(pod: Pod, max: U32, n: nat, t: int): seq<Call> {
    if n == 0 then Burst(pod, max, t) else LostRound(LostRounds(pod, max, n - 1, t), pod, max, t)
  }

  function LostRound(calls: seq<Call>, pod: Pod, max: U32, t: int): seq<Call> {
    calls + [Check(pod, t, LostWrite)] + Burst(pod, max, t)
  }

  lemma LostRoundCounts(max: U32, calls: seq<Call>, longer: seq<Call>, pod: Pod, t: int)
    requires max > 0 && longer == LostRound(calls, pod, max, t)
    ensures CountIn(History(max, longer, pod), t, t + WINDOW)
         == CountIn(History(max, calls, pod), t, t + WINDOW) + 1 + max
    ensures Slack(max, longer, pod) == Slack(max, calls, pod) + 1 + max
  {
    var lost := calls + [Check(pod, t, LostWrite)];
    OneMoreFailure(max, calls, lost, pod, t, LostWrite);
    BurstAfter(max, lost, longer, pod, max, t, t + WINDOW);
  }

  lemma OneMoreProduct(n: nat, m: nat)
    requires n > 0
    ensures n * (m + 1) == (n - 1) * (m + 1) + 1 + m
  {
  }

  /** The bound is reached with any number of lost writes, for every budget. */
  lemma {:induction false} LostWritesReachTheBound(pod: Pod, max: U32, n: nat, t: int, calls: seq<Call>)
    requires max > 0 && calls == LostRounds(pod, max, n, t)
    ensures Slack(max, calls, pod) == n * (max + 1)
    ensures CountIn(History(max, calls, pod), t, t + 3600) == max + n * (max + 1)
    decreases n
  {
    if n == 0 {
      BurstCounts(max, pod, t);
    } else {
      var before := LostRounds(pod, max, n - 1, t);
      LostWritesReachTheBound(pod, max, n - 1, t, before);
      LostRoundCounts(max, before, calls, pod, t);
      OneMoreProduct(n, max);
    }
  }
}
