/**
 The per-pod core-upload limiter. Each locked section (read the state file, change it,
 write it back) is one atomic step; the outcome of the file IO is a parameter.
 */
module RateLimit {

  type Pod = string

  /** The state file: for each pod, when its admitted crashes happened. */
  type Events = map<Pod, seq<int>>

  const WINDOW := 3600
  const U32_MAX := 0xFFFF_FFFF

  type U32 = n: int | 0 <= n <= U32_MAX

  datatype Decision = Allowed | Suppressed(recent: U32)

  /**
   How the locked section's file IO went. `Unavailable`: it failed before the file was
   truncated. `LostWrite`: it failed between truncating and rewriting, so the file holds no
   parseable JSON and the next reader starts from the empty state.
   */
  datatype Io = IoOk | Unavailable | LostWrite

  // ----- one call -----

  function Times(events: Events, pod: Pod): seq<int> {
    if pod in events then events[pod] else []
  }

  /** The timestamps later than `cutoff`, in order: `Vec::retain`. */
  function After(times: seq<int>, cutoff: int): seq<int> {
    if times == [] then []
    else
      var n := |times| - 1;
      if times[n] > cutoff then After(times[..n], cutoff) + [times[n]] else After(times[..n], cutoff)
  }

  /** Take out the last `t`, if there is one: `rposition` and `remove`. */
  function WithoutLast(times: seq<int>, t: int): seq<int> {
    if times == [] then []
    else
      var n := |times| - 1;
      if times[n] == t then times[..n] else WithoutLast(times[..n], t) + [times[n]]
  }

  /** Drop what has left the window, for every pod, and pods with nothing left. */
  function Prune(events: Events, cutoff: int): Events {
    map p | p in events && After(events[p], cutoff) != [] :: After(events[p], cutoff)
  }

  function Saturate(n: nat): U32 {
    if n <= U32_MAX then n else U32_MAX
  }

  function Decide(events: Events, max: U32, pod: Pod, now: int): Decision {
    var recent := Saturate(|After(Times(events, pod), now - WINDOW)|);
    if max != 0 && recent >= max then Suppressed(recent) else Allowed
  }

  function CheckedEvents(events: Events, max: U32, pod: Pod, now: int): Events {
    if max == 0 then events
    else
      var pruned := Prune(events, now - WINDOW);
      if Decide(events, max, pod, now).Allowed? then pruned[pod := Times(pruned, pod) + [now]] else pruned
  }

  function RefundedEvents(events: Events, max: U32, pod: Pod, at: int): Events {
    if max == 0 || pod !in events then events
    else
      var times := WithoutLast(events[pod], at);
      if times == [] then events - {pod} else events[pod := times]
  }

  function OnIo(before: Events, after: Events, max: U32, io: Io): Events {
    match io
    case IoOk => after
    case Unavailable => before
    case LostWrite => if max == 0 then before else map[]
  }

  lemma TimesPruned(events: Events, cutoff: int, pod: Pod)
    ensures Times(Prune(events, cutoff), pod) == After(Times(events, pod), cutoff)
  {
  }

  lemma TimesChecked(events: Events, max: U32, pod: Pod, now: int, q: Pod)
    requires max > 0
    ensures Times(CheckedEvents(events, max, pod, now), q)
         == After(Times(events, q), now - WINDOW)
          + if q == pod && Decide(events, max, pod, now).Allowed? then [now] else []
  {
    TimesPruned(events, now - WINDOW, q);
  }

  lemma TimesRefunded(events: Events, max: U32, pod: Pod, at: int, q: Pod)
    requires max > 0
    ensures Times(RefundedEvents(events, max, pod, at), q)
         == if q == pod then WithoutLast(Times(events, q), at) else Times(events, q)
  {
  }

  // ----- the limiter, as the source updates it in place -----

  /** `times.retain(|t| *t > cutoff)` */
  method RetainAfter(times: seq<int>, cutoff: int) returns (kept: seq<int>)
    ensures kept == After(times, cutoff)
  {
    kept := [];
    for i := 0 to |times|
      invariant kept == After(times[..i], cutoff)
    {
      assert times[..i + 1][..i] == times[..i];
      if times[i] > cutoff {
        kept := kept + [times[i]];
      }
    }
    assert times[..|times|] == times;
  }

  /** `times.iter().rposition(|t| *t == at)`, then `times.remove(pos)` */
  method RemoveLast(times: seq<int>, at: int) returns (rest: seq<int>)
    ensures rest == WithoutLast(times, at)
  {
    var pos := |times|;
    assert times[..pos] == times;
    while pos > 0 && times[pos - 1] != at
      invariant 0 <= pos <= |times|
      invariant WithoutLast(times, at) == WithoutLast(times[..pos], at) + times[pos..]
    {
      assert times[..pos][..pos - 1] == times[..pos - 1];
      assert [times[pos - 1]] + times[pos..] == times[pos - 1..];
      pos := pos - 1;
    }
    if pos > 0 {
      assert times[..pos][..pos - 1] == times[..pos - 1];
      rest := times[..pos - 1] + times[pos..];
    } else {
      rest := times;
    }
  }

  class RateLimiter {
    const max: U32
    var events: Events

    constructor (max: U32)
      ensures this.max == max && events == map[]
    {
      this.max := max;
      events := map[];
    }

    /** `state.events.retain(..)`: prune every pod's list in place. */
    method Retain(cutoff: int)
      modifies this
      ensures events == Prune(old(events), cutoff)
    {
      var todo := events.Keys;
      var kept: Events := map[];
      while todo != {}
        invariant todo <= events.Keys
        invariant events == old(events)
        invariant kept == map p | p in events && p !in todo && After(events[p], cutoff) != []
                              :: After(events[p], cutoff)
        decreases todo
      {
        var p :| p in todo;
        var times := RetainAfter(events[p], cutoff);
        if times != [] {
          kept := kept[p := times];
        }
        todo := todo - {p};
      }
      events := kept;
    }

    /** Fail-open: with any IO error the answer is `Allowed`. */
    method CheckAndRecord(scope: Pod, now: int, io: Io) returns (decision: Decision)
      modifies this
      ensures decision == if io == IoOk then Decide(old(events), max, scope, now) else Allowed
      ensures io == IoOk && max > 0 ==>
                var recent := |After(Times(old(events), scope), now - 3600)|;
                && (decision.Allowed? <==> recent < max)
                && (decision.Suppressed? ==> decision.recent == if recent < 0x1_0000_0000 then recent else 0xFFFF_FFFF)
      ensures events == OnIo(old(events), CheckedEvents(old(events), max, scope, now), max, io)
    {
      if max == 0 {
        return Allowed;
      }
      match io
      case Unavailable =>
        decision := Allowed;
      case LostWrite =>
        events := map[];
        decision := Allowed;
      case IoOk =>
        TimesPruned(events, now - WINDOW, scope);
        Retain(now - WINDOW);
        var recent := Saturate(if scope in events then |events[scope]| else 0);
        if recent >= max {
          decision := Suppressed(recent);
        } else {
          events := events[scope := (if scope in events then events[scope] else []) + [now]];
          decision := Allowed;
        }
    }

    /** Best-effort: an IO error is swallowed. */
    method Refund(scope: Pod, recordedAt: int, io: Io)
      modifies this
      ensures events == OnIo(old(events), RefundedEvents(old(events), max, scope, recordedAt), max, io)
    {
      if max == 0 {
        return;
      }
      match io
      case Unavailable =>
      case LostWrite => events := map[];
      case IoOk =>
        if scope in events {
          var times := RemoveLast(events[scope], recordedAt);
          if times == [] {
            events := events - {scope};
          } else {
            events := events[scope := times];
          }
        }
    }
  }

  // ----- facts about the two list operations -----

  lemma {:induction false} AfterAfter(times: seq<int>, c: int, d: int)
    requires c <= d
    ensures After(After(times, c), d) == After(times, d)
  {
    if times != [] {
      var n := |times| - 1;
      AfterAfter(times[..n], c, d);
      var kept := After(times[..n], c);
      if times[n] > c {
        assert (kept + [times[n]])[..|kept|] == kept;
      }
    }
  }

  lemma AfterPush(times: seq<int>, t: int, c: int)
    ensures After(times + [t], c) == if t > c then After(times, c) + [t] else After(times, c)
  {
    assert (times + [t])[..|times|] == times;
  }

  lemma {:induction false} AfterWithoutLast(times: seq<int>, t: int, c: int)
    ensures After(WithoutLast(times, t), c) == if t > c then WithoutLast(After(times, c), t) else After(times, c)
  {
    if times != [] {
      var n := |times| - 1;
      AfterWithoutLast(times[..n], t, c);
      var kept, rest := After(times[..n], c), WithoutLast(times[..n], t);
      if times[n] != t {
        AfterPush(rest, times[n], c);
      }
      if times[n] > c {
        assert (kept + [times[n]])[..|kept|] == kept;
      }
    }
  }

  lemma {:induction false} AfterShrinks(times: seq<int>, c: int, d: int)
    requires c <= d
    ensures |After(times, d)| <= |After(times, c)| <= |times|
  {
    if times != [] {
      AfterShrinks(times[..|times| - 1], c, d);
    }
  }

  /** What is taken out is the last one, and everything else stays where it is. */
  lemma {:induction false} WithoutLastAt(a: seq<int>, t: int, b: seq<int>)
    requires t !in b
    ensures WithoutLast(a + [t] + b, t) == a + b
    decreases |b|
  {
    var n := |a| + |b|;
    var all := a + [t] + b;
    if b == [] {
      assert all[..n] == a + b;
    } else {
      var m := |b| - 1;
      WithoutLastAt(a, t, b[..m]);
      assert all[..n] == a + [t] + b[..m] && all[n] == b[m];
      assert a + b == (a + b[..m]) + [b[m]];
    }
  }

  lemma {:induction false} WithoutLastMultiset(times: seq<int>, t: int)
    ensures multiset(WithoutLast(times, t)) == multiset(times) - multiset{t}
  {
    if times != [] {
      var n := |times| - 1;
      WithoutLastMultiset(times[..n], t);
      assert times == times[..n] + [times[n]];
      assert times[n] != t ==> multiset(times)[t] == multiset(times[..n])[t];
    }
  }
}
