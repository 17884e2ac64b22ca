/** The daemon's whole stream of reports and ticks, and the names of the Events it creates. */
module EventRuns {
  import opened Text
  import opened Keys
  import opened Aggregation
  import Capture
  import CaptureRuns
  import Cgroup
  import RL = RateLimit

  /** What the daemon's loop receives: a report, or the tick on which it sweeps. */
  datatype Input = Report(payload: Payload, now: int) | Tick(now: int)

  /** The aggregator's map after the inputs. */
  function StateOf(inputs: seq<Input>): Entries {
    if inputs == [] then map[]
    else
      var before := StateOf(inputs[..|inputs| - 1]);
      match inputs[|inputs| - 1]
      case Report(p, now) => HandledEntries(before, p, now)
      case Tick(now) => Pruned(before, now)
  }

  /** The API call the `i`-th input leads to. */
  function CallAt(inputs: seq<Input>, i: nat): Option<ApiCall>
    requires i < |inputs|
  {
    if inputs[i].Tick? then None else CallOf(StateOf(inputs[..i]), inputs[i].payload, inputs[i].now)
  }

  ghost predicate InputClock(inputs: seq<Input>) {
    forall i, j :: 0 <= i <= j < |inputs| ==> inputs[i].now <= inputs[j].now
  }

  // ----- as runs of the aggregator -----

  function OpOf(input: Input): Option<Op> {
    match input
    case Tick(now) => Some(Sweep(now))
    case Report(p, now) =>
      match KeyOf(p)
      case None => None
      case Some(key) => Some(Op.Record(key, now, NameOf(p)))
  }

  /** The operations of the inputs; a report that targets no pod is none. */
  function OpsOf(inputs: seq<Input>): seq<Op> {
    if inputs == [] then []
    else
      var n := |inputs| - 1;
      match OpOf(inputs[n])
      case None => OpsOf(inputs[..n])
      case Some(op) => OpsOf(inputs[..n]) + [op]
  }

  lemma RunAppend(ops: seq<Op>, op: Op)
    ensures Run(ops + [op]) == ApplyOp(Run(ops), op)
  {
    assert (ops + [op])[..|ops|] == ops;
  }

  lemma {:induction false} StateIsRun(inputs: seq<Input>)
    ensures StateOf(inputs) == Run(OpsOf(inputs))
    decreases |inputs|
  {
    if inputs != [] {
      var n := |inputs| - 1;
      StateIsRun(inputs[..n]);
      if OpOf(inputs[n]).Some? {
        RunAppend(OpsOf(inputs[..n]), OpOf(inputs[n]).value);
      }
    }
  }

  lemma OpsAppend(inputs: seq<Input>, last: Input)
    ensures OpsOf(inputs + [last])
         == OpsOf(inputs) + if OpOf(last).Some? then [OpOf(last).value] else []
  {
    assert (inputs + [last])[..|inputs|] == inputs;
  }

  lemma {:induction false} OpsSplit(inputs: seq<Input>, i: nat)
    requires i < |inputs| && OpOf(inputs[i]).Some?
    ensures var k := |OpsOf(inputs[..i])|;
            && k < |OpsOf(inputs)| && OpsOf(inputs)[k] == OpOf(inputs[i]).value
            && OpsOf(inputs)[..k] == OpsOf(inputs[..i])
    decreases |inputs|
  {
    var n := |inputs| - 1;
    var init, last := inputs[..n], inputs[n];
    assert inputs == init + [last];
    OpsAppend(init, last);
    if i < n {
      assert init[..i] == inputs[..i];
      OpsSplit(init, i);
    }
  }

  lemma {:induction false} OpsInOrder(inputs: seq<Input>)
    requires InputClock(inputs)
    ensures Clock(OpsOf(inputs))
    ensures inputs != [] ==> AllBy(OpsOf(inputs), inputs[|inputs| - 1].now)
    decreases |inputs|
  {
    if inputs != [] {
      OpsInOrder(inputs[..|inputs| - 1]);
    }
  }

  lemma {:induction false} OpsGrow(inputs: seq<Input>, i: nat)
    requires i <= |inputs|
    ensures |OpsOf(inputs[..i])| <= |OpsOf(inputs)|
    decreases |inputs|
  {
    if i < |inputs| {
      assert inputs[..|inputs| - 1][..i] == inputs[..i];
      OpsGrow(inputs[..|inputs| - 1], i);
    } else {
      assert inputs[..i] == inputs;
    }
  }

  // ----- CREATEs -----

  ghost predicate Creates(inputs: seq<Input>, i: nat) {
    i < |inputs| && CallAt(inputs, i).Some? && CallAt(inputs, i).value.Create?
  }

  /** A CREATE is a new answer in the aggregator's run, under the name made for its report. */
  lemma CreateIsNew(inputs: seq<Input>, i: nat)
    requires Creates(inputs, i)
    ensures var p, k := inputs[i].payload, |OpsOf(inputs[..i])|;
            && inputs[i].Report? && KeyOf(p).Some?
            && CallAt(inputs, i) == Some(Create(KeyOf(p).value.namespace, NameOf(p)))
            && k < |OpsOf(inputs)| && OpsOf(inputs)[k] == Op.Record(KeyOf(p).value, inputs[i].now, NameOf(p))
            && ResultAt(OpsOf(inputs), k).Some? && ResultAt(OpsOf(inputs), k).value.isNew
  {
    OpsSplit(inputs, i);
    StateIsRun(inputs[..i]);
  }

  /** The accepted captures of a key begin with those of any prefix of the run. */
  lemma {:induction false} AcceptedSplits(ops: seq<Op>, k: nat)
    requires k < |ops| && ops[k].Record? && ResultAt(ops, k).Some?
    ensures var key := ops[k].key;
            var m := |AcceptedOf(ops[..k], key)|;
            && m < |AcceptedOf(ops, key)|
            && AcceptedOf(ops, key)[m] == Accepted(ops[k].now, ops[k].name, ResultAt(ops, k).value)
            && AcceptedOf(ops, key)[..m] == AcceptedOf(ops[..k], key)
    decreases |ops|
  {
    var n := |ops| - 1;
    if k < n {
      assert ops[..n][..k] == ops[..k];
      AcceptedSplits(ops[..n], k);
    }
  }

  lemma NewAnswersApart(ops: seq<Op>, k: nat, l: nat)
    requires Clock(ops) && k < l < |ops| && ops[k].Record? && ops[l].Record? && ops[k].key == ops[l].key
    requires ResultAt(ops, k).Some? && ResultAt(ops, k).value.isNew && ResultAt(ops, l).Some?
             && ResultAt(ops, l).value.isNew
    ensures ops[l].now - ops[k].now >= TTL
  {
    var key := ops[k].key;
    AcceptedSplits(ops, k);
    AcceptedSplits(ops, l);
    assert ops[..l][..k] == ops[..k];
    AcceptedSplits(ops[..l], k);
    CreatesAreApart(ops, key, |AcceptedOf(ops[..k], key)|, |AcceptedOf(ops[..l], key)|);
  }

  /**
   Over every stream of reports and ticks: two CREATEs carry the same name if and only if their reports
   agree in the pod, the reason and the crash timestamp.
   */
  lemma NamesCollideIff(inputs: seq<Input>, i: nat, j: nat)
    requires Creates(inputs, i) && Creates(inputs, j)
    ensures inputs[i].Report? && inputs[j].Report? && KeyOf(inputs[i].payload).Some? && KeyOf(inputs[j].payload).Some?
    ensures var p, q := inputs[i].payload, inputs[j].payload;
            CallAt(inputs, i).value.name == CallAt(inputs, j).value.name
            <==> KeyOf(p).value.podUid == KeyOf(q).value.podUid && KeyOf(p).value.reason == KeyOf(q).value.reason
                 && p.timestamp == q.timestamp
  {
    CreateIsNew(inputs, i);
    CreateIsNew(inputs, j);
    var p, q := inputs[i].payload, inputs[j].payload;
    if NameOf(p) == NameOf(q) {
      EventNameInjective(KeyOf(p).value.podUid, KeyOf(p).value.reason, p.timestamp,
                         KeyOf(q).value.podUid, KeyOf(q).value.reason, q.timestamp);
    }
  }

  /**
   Two CREATEs of one key are at least the TTL apart by the daemon's clock, and they carry the same
   name if and only if their crash timestamps are equal nevertheless.
   */
  lemma RecreatedEventNames(inputs: seq<Input>, i: nat, j: nat)
    requires InputClock(inputs) && i < j && Creates(inputs, i) && Creates(inputs, j)
    requires inputs[i].Report? && inputs[j].Report? && KeyOf(inputs[i].payload) == KeyOf(inputs[j].payload)
    ensures inputs[j].now - inputs[i].now >= TTL
    ensures CallAt(inputs, i).value.name == CallAt(inputs, j).value.name
            <==> inputs[i].payload.timestamp == inputs[j].payload.timestamp
  {
    NamesCollideIff(inputs, i, j);
    CreateIsNew(inputs, i);
    CreateIsNew(inputs, j);
    OpsInOrder(inputs);
    var k, l := |OpsOf(inputs[..i])|, |OpsOf(inputs[..j])|;
    assert k < l by {
      assert inputs[..j][..i] == inputs[..i];
      OpsSplit(inputs[..j], i);
    }
    NewAnswersApart(OpsOf(inputs), k, l);
  }

  /** It does happen: a report handled again a TTL later is CREATEd under the old name. */
  lemma SameTimestampSameName(p: Payload, now: int)
    requires KeyOf(p).Some?
    ensures var inputs := [Report(p, now), Report(p, now + TTL)];
            && Creates(inputs, 0) && Creates(inputs, 1) && CallAt(inputs, 0) == CallAt(inputs, 1)
  {
    var inputs, key := [Report(p, now), Report(p, now + TTL)], KeyOf(p).value;
    assert inputs[..0] == [] && inputs[..1] == [inputs[0]] && inputs[..1][..0] == [];
    assert StateOf(inputs[..0]) == map[];
    assert Pruned(map[], now) == map[];
    assert StateOf(inputs[..1]) == map[key := Entry(NameOf(p), 1, now)];
    assert Pruned(StateOf(inputs[..1]), now + TTL) == map[];
  }

  // ----- PATCHes -----

  /** The CREATE that opened the block of the `n`-th accepted capture of a key. */
  lemma {:induction false} OpenedBy(a: seq<Accepted>, n: nat) returns (m: nat)
    requires InBlocks(a) && n < |a|
    ensures m <= n && a[m].r.isNew && a[m].r.name == a[m].name
    ensures forall k :: m < k <= n ==> !a[k].r.isNew
    ensures a[n].r.name == a[m].name && a[n].r.count == n - m + 1
    decreases |a|
  {
    if n < |a| - 1 {
      m := OpenedBy(a[..|a| - 1], n);
    } else if a[n].r.isNew {
      m := n;
    } else {
      assert n > 0;
      m := OpenedBy(a[..n], n - 1);
    }
  }

  /**
   Over every stream: a call for a report is a PATCH of the Event of its key that was CREATEd last, under
   the name of that CREATE, and its count is the number of captures of the key since then, both included.
   */
  lemma PatchesCount(inputs: seq<Input>, i: nat) returns (m: nat)
    requires InputClock(inputs) && i < |inputs| && CallAt(inputs, i).Some?
    ensures inputs[i].Report? && KeyOf(inputs[i].payload).Some?
    ensures var key := KeyOf(inputs[i].payload).value;
            var a := AcceptedOf(OpsOf(inputs[..i + 1]), key);
            && m < |a| && a[m].r.isNew && (forall k :: m < k < |a| ==> !a[k].r.isNew)
            && CallAt(inputs, i).value
               == if m == |a| - 1 then Create(key.namespace, a[m].name)
                  else Patch(key.namespace, a[m].name, |a| - m)
  {
    var upto := inputs[..i + 1];
    var key, ops := KeyOf(inputs[i].payload).value, OpsOf(upto);
    assert upto[..i] == inputs[..i] && upto == inputs[..i] + [inputs[i]];
    OpsAppend(inputs[..i], inputs[i]);
    StateIsRun(inputs[..i]);
    OpsInOrder(upto);
    CallsFormBlocks(ops, key);
    LastAccepted(OpsOf(inputs[..i]), Op.Record(key, inputs[i].now, NameOf(inputs[i].payload)));
    var a := AcceptedOf(ops, key);
    m := OpenedBy(a, |a| - 1);
  }

  lemma LastAccepted(ops: seq<Op>, op: Op)
    requires op.Record? && Answer(Pruned(Run(ops), op.now), op.key, op.name).Some?
    ensures AcceptedOf(ops + [op], op.key)
         == AcceptedOf(ops, op.key)
          + [Accepted(op.now, op.name, Answer(Pruned(Run(ops), op.now), op.key, op.name).value)]
  {
    assert (ops + [op])[..|ops|] == ops;
  }

  // ----- which capture leads to which Event -----

  /** The payload names a pod in a way that is fit for request URLs; the bounds are those of DNS labels and pod UIDs. */
  ghost predicate Postable(p: Payload) {
    && p.namespace.Some? && p.podName.Some? && p.podUid.Some?
    && var ns, uid := p.namespace.value, p.podUid.value;
       && 1 <= |ns| <= 63 && ns[0] != '-' && ns[|ns| - 1] != '-'
       && (forall c :: c in ns ==> 'a' <= c <= 'z' || '0' <= c <= '9' || c == '-')
       && 1 <= |uid| <= 253
       && (forall c :: c in uid ==> 'a' <= c <= 'f' || '0' <= c <= '9' || c == '-')
  }

  /** A payload has a key if and only if it names a pod and its outcome is one of the three that are posted. */
  lemma KeyIff(p: Payload)
    ensures KeyOf(p).Some?
            <==> Postable(p) && p.outcome in {Capture.Uploaded, Capture.SuppressedRateLimit, Capture.NoStoreDiscard}
    ensures KeyOf(p).Some? ==> KeyOf(p).value.namespace == p.namespace.value && KeyOf(p).value.podUid == p.podUid.value
  {
    if p.namespace.Some? && p.podUid.Some? {
      LabelIff(p.namespace.value);
      UidIff(p.podUid.value);
    }
  }

  lemma LabelIff(ns: string)
    ensures IsDns1123Label(ns)
            <==> 1 <= |ns| <= 63 && ns[0] != '-' && ns[|ns| - 1] != '-'
                 && forall c :: c in ns ==> 'a' <= c <= 'z' || '0' <= c <= '9' || c == '-'
  {
    assert forall i :: 0 <= i < |ns| ==> ns[i] in ns;
  }

  lemma UidIff(uid: string)
    ensures Cgroup.IsPodUid(uid)
            <==> 1 <= |uid| <= 253 && forall c :: c in uid ==> 'a' <= c <= 'f' || '0' <= c <= '9' || c == '-'
  {
    assert forall i :: 0 <= i < |uid| ==> uid[i] in uid;
  }

  /**
   A payload that names a pod and meets a map with room for it leads to a call, unless its handler failed or
   had no pod; a CREATE carries the name for its outcome, and only for that one.
   */
  lemma EventForOutcome(entries: Entries, p: Payload, now: int)
    requires Postable(p) && |Pruned(entries, now)| < 10_000
    ensures CallOf(entries, p, now).None? <==> p.outcome == Capture.Failed || p.outcome == Capture.SkippedNonK8s
    ensures CallOf(entries, p, now).Some? && CallOf(entries, p, now).value.Create? ==>
              var name, uid, t := CallOf(entries, p, now).value.name, p.podUid.value, p.timestamp;
              && (name == NameFor(uid, "-coredumped-", t) <==> p.outcome == Capture.Uploaded)
              && (name == NameFor(uid, "-coredumpsuppressed-", t) <==> p.outcome == Capture.SuppressedRateLimit)
              && (name == NameFor(uid, "-corediscardednostore-", t) <==> p.outcome == Capture.NoStoreDiscard)
  {
    KeyIff(p);
    if KeyOf(p).Some? {
      NamesApart(p.podUid.value, p.timestamp);
      NameIs(p);
    }
  }

  lemma NamesApart(uid: string, t: int)
    ensures NameFor(uid, "-coredumped-", t) != NameFor(uid, "-coredumpsuppressed-", t)
    ensures NameFor(uid, "-coredumped-", t) != NameFor(uid, "-corediscardednostore-", t)
    ensures NameFor(uid, "-coredumpsuppressed-", t) != NameFor(uid, "-corediscardednostore-", t)
  {
    assert |"-coredumped-"| != |"-coredumpsuppressed-"| && |"-coredumped-"| != |"-corediscardednostore-"|;
    assert |"-coredumpsuppressed-"| != |"-corediscardednostore-"|;
  }

  /**
   From the crash to the Event, over every schedule: the report of a finished handler leads to a
   CoreDumped key if and only if the manifest it built says that the core is present, to a
   CoreDumpSuppressed key if and only if the manifest says it was skipped for the rate limit, and to a
   CoreDiscardedNoStore key if and only if there was a pod but no store.
   */
  lemma EventMatchesManifest(max: RL.U32, jobs: seq<Capture.Job>, schedule: Capture.Schedule, j: nat, p: Payload)
    requires var w := Capture.Exec(Capture.Initial(max, jobs), schedule);
             && j < |w.procs| && w.procs[j].pc.Done? && p.outcome == w.procs[j].pc.report.outcome
    requires Postable(p)
    ensures var proc := Capture.Exec(Capture.Initial(max, jobs), schedule).procs[j];
            var built, reason := proc.pc.built, if KeyOf(p).Some? then Some(KeyOf(p).value.reason) else None;
            && (reason == Some(CoreDumped) <==> built.Some? && built.value.core.present)
            && (reason == Some(CoreDumpSuppressed)
                <==> built.Some? && built.value.core.skippedReason == Some("rate_limit"))
            && (reason == Some(CoreDiscardedNoStore) <==> built.Some? && proc.job.identity.Some? && !proc.job.hasStore)
            && (reason == None <==> built.None? || proc.job.identity.None?)
  {
    var w := Capture.Exec(Capture.Initial(max, jobs), schedule);
    CaptureRuns.ReportsAreTrue(max, jobs, schedule);
    assert CaptureRuns.HonestProcess(w.procs[j]);
    KeyIff(p);
  }

  // ----- an hour, and ten thousand keys -----

  /** A pod that crashes twice for one reason gets a second Event exactly when an hour has passed between the two. */
  lemma SecondEventAfterAnHour(key: AggKey, t: int, t': int, name: string, name': string)
    requires t <= t'
    ensures var ops := [Op.Record(key, t, name), Op.Record(key, t', name')];
            && ResultAt(ops, 0) == Some(Recorded(name, true, 1))
            && ResultAt(ops, 1) == (if t' - t < 3_600_000_000_000 then Some(Recorded(name, false, 2))
                                    else Some(Recorded(name', true, 1)))
  {
    var ops := [Op.Record(key, t, name), Op.Record(key, t', name')];
    assert ops[..0] == [] && ops[..1] == [ops[0]] && ops[..1][..0] == [];
    assert Run(ops[..0]) == map[];
    assert Pruned(map[], t) == map[];
    assert Run(ops[..1]) == map[key := Entry(name, 1, t)];
  }

  /** With ten thousand live keys, a capture of another key is dropped, and one of theirs is not. */
  lemma FullMapDrops(entries: Entries, key: AggKey, now: int, name: string)
    requires |Pruned(entries, now)| == 10_000
    ensures Answer(Pruned(entries, now), key, name).None? <==> key !in Pruned(entries, now)
  {
  }
}
