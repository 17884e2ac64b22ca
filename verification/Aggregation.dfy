/**
 The daemon's Event aggregator: a map bounded by age and by size that decides, for each capture,
 between creating an Event and bumping the count of one that exists.
 */
module Aggregation {
  import opened Text
  import opened Keys
  import Capture
  import Cgroup

  /** One hour, in nanoseconds. */
  const TTL: int := 3_600_000_000_000
  const MAX_KEYS: nat := 10_000
  const MAX_NAMESPACE_LEN: nat := 63

  datatype AggKey = AggKey(namespace: string, podUid: string, reason: Reason)

  datatype Entry = Entry(name: string, count: nat, createdAt: int)

  type Entries = map<AggKey, Entry>

  datatype Recorded = Recorded(name: string, isNew: bool, count: nat)

  // ----- one call -----

  /** `Instant::duration_since` saturates at zero. */
  function Elapsed(now: int, since: int): nat {
    if now <= since then 0 else now - since
  }

  predicate Live(e: Entry, now: int) {
    Elapsed(now, e.createdAt) < TTL
  }

  function Pruned(entries: Entries, now: int): Entries {
    map k | k in entries && Live(entries[k], now) :: entries[k]
  }

  function Bumped(e: Entry): Entry {
    e.(count := e.count + 1)
  }

  /** The answer, given the entries that are live now. */
  function Answer(live: Entries, key: AggKey, name: string): Option<Recorded> {
    if key in live then Some(Recorded(live[key].name, false, live[key].count + 1))
    else if |live| >= MAX_KEYS then None
    else Some(Recorded(name, true, 1))
  }

  function RecordedEntries(entries: Entries, key: AggKey, now: int, name: string): Entries {
    var live := Pruned(entries, now);
    if key in live then live[key := Bumped(live[key])]
    else if |live| >= MAX_KEYS then live
    else live[key := Entry(name, 1, now)]
  }

  function FromOutcome(outcome: Capture.Outcome): Option<Reason> {
    match outcome
    case Uploaded => Some(CoreDumped)
    case SuppressedRateLimit => Some(CoreDumpSuppressed)
    case NoStoreDiscard => Some(CoreDiscardedNoStore)
    case _ => None
  }

  predicate IsAlnum(c: char) {
    'a' <= c <= 'z' || '0' <= c <= '9'
  }

  predicate IsDns1123Label(s: string) {
    && 0 < |s| <= MAX_NAMESPACE_LEN
    && (forall i :: 0 <= i < |s| ==> IsAlnum(s[i]) || s[i] == '-')
    && IsAlnum(s[0]) && IsAlnum(s[|s| - 1])
  }

  datatype Payload = Payload(
    outcome: Capture.Outcome,
    namespace: Option<string>,
    podName: Option<string>,
    podUid: Option<string>,
    timestamp: int)

  /** The aggregation key of a payload that targets a pod; `None` for one that is dropped. */
  function KeyOf(p: Payload): Option<AggKey> {
    var reason := FromOutcome(p.outcome);
    if reason.None? || p.namespace.None? || p.podName.None? || p.podUid.None? then None
    else if !IsDns1123Label(p.namespace.value) || !Cgroup.IsPodUid(p.podUid.value) then None
    else Some(AggKey(p.namespace.value, p.podUid.value, reason.value))
  }

  datatype ApiCall = Create(namespace: string, name: string) | Patch(namespace: string, name: string, count: nat)

  function CallFor(namespace: string, r: Recorded): ApiCall {
    if r.isNew then Create(namespace, r.name) else Patch(namespace, r.name, r.count)
  }

  function NameOf(p: Payload): string
    requires KeyOf(p).Some?
  {
    EventName(KeyOf(p).value.podUid, KeyOf(p).value.reason, p.timestamp)
  }

  /** An Event name, spelled out. */
  function NameFor(uid: string, part: string, t: int): string {
    "coredrop-" + uid + part + Decimal(t)
  }

  /** The part of the name that tells the outcomes apart. */
  function PartFor(outcome: Capture.Outcome): string {
    match outcome
    case Uploaded => "-coredumped-"
    case SuppressedRateLimit => "-coredumpsuppressed-"
    case _ => "-corediscardednostore-"
  }

  lemma Respell(uid: string, slug: string, t: int)
    ensures "coredrop-" + uid + "-" + slug + "-" + Decimal(t) == NameFor(uid, "-" + slug + "-", t)
  {
  }

  lemma NameIs(p: Payload)
    requires KeyOf(p).Some?
    ensures NameOf(p) == NameFor(p.podUid.value, PartFor(p.outcome), p.timestamp)
  {
    var reason := KeyOf(p).value.reason;
    Respell(p.podUid.value, Slug(reason), p.timestamp);
    PartIs(p.outcome, reason);
  }

  lemma PartIs(outcome: Capture.Outcome, reason: Reason)
    requires FromOutcome(outcome) == Some(reason)
    ensures "-" + Slug(reason) + "-" == PartFor(outcome)
  {
  }

  /** What one payload does to the map. */
  function HandledEntries(entries: Entries, p: Payload, now: int): Entries {
    match KeyOf(p)
    case None => entries
    case Some(key) => RecordedEntries(entries, key, now, NameOf(p))
  }

  function CallOf(entries: Entries, p: Payload, now: int): Option<ApiCall> {
    match KeyOf(p)
    case None => None
    case Some(key) =>
      match Answer(Pruned(entries, now), key, NameOf(p))
      case None => None
      case Some(r) => Some(CallFor(key.namespace, r))
  }

  class Aggregator {
    var entries: Entries

    constructor ()
      ensures entries == map[]
    {
      entries := map[];
    }

    method Prune(now: int)
      modifies this
      ensures entries == Pruned(old(entries), now)
    {
      var todo := entries.Keys;
      while todo != {}
        invariant todo <= old(entries).Keys
        invariant entries == map k | k in old(entries) && (k in todo || Live(old(entries)[k], now)) :: old(entries)[k]
        decreases todo
      {
        var k :| k in todo;
        if Elapsed(now, entries[k].createdAt) >= TTL {
          entries := entries - {k};
        }
        todo := todo - {k};
      }
    }

    method Record(key: AggKey, now: int, name: string) returns (r: Option<Recorded>)
      modifies this
      ensures r == Answer(Pruned(old(entries), now), key, name)
      ensures entries == RecordedEntries(old(entries), key, now, name)
    {
      Prune(now);
      if key in entries {
        var entry := Bumped(entries[key]);
        entries := entries[key := entry];
        return Some(Recorded(entry.name, false, entry.count));
      }
      if |entries| >= MAX_KEYS {
        return None;
      }
      entries := entries[key := Entry(name, 1, now)];
      r := Some(Recorded(name, true, 1));
    }

    /** The API call one payload leads to, if any; a payload that targets no pod changes nothing. */
    method HandlePayload(hasClient: bool, p: Payload, now: int) returns (call: Option<ApiCall>)
      modifies this
      ensures call == if hasClient then CallOf(old(entries), p, now) else None
      ensures entries == if hasClient then HandledEntries(old(entries), p, now) else old(entries)
      ensures call.Some? ==> p.outcome in {Capture.Uploaded, Capture.SuppressedRateLimit, Capture.NoStoreDiscard}
      ensures call.Some? ==> p.podUid.Some? && p.podName.Some? && p.namespace == Some(call.value.namespace)
      ensures call.Some? && call.value.Patch? ==>
                && KeyOf(p).Some? && KeyOf(p).value in old(entries)
                && var open := old(entries)[KeyOf(p).value];
                   call.value.name == open.name && call.value.count == open.count + 1
      ensures call.Some? && call.value.Create? ==>
                call.value.name == NameFor(p.podUid.value, PartFor(p.outcome), p.timestamp)
    {
      var reason := FromOutcome(p.outcome);
      if reason.None? || !hasClient {
        return None;
      }
      if p.namespace.None? || p.podName.None? || p.podUid.None? {
        return None;
      }
      if !IsDns1123Label(p.namespace.value) || !Cgroup.IsPodUid(p.podUid.value) {
        return None;
      }
      var key := AggKey(p.namespace.value, p.podUid.value, reason.value);
      NameIs(p);
      var r := Record(key, now, EventName(p.podUid.value, reason.value, p.timestamp));
      if r.None? {
        return None;
      }
      call := Some(if r.value.isNew then Create(key.namespace, r.value.name)
                   else Patch(key.namespace, r.value.name, r.value.count));
    }
  }

  // ----- runs -----

  datatype Op = Record(key: AggKey, now: int, name: string) | Sweep(now: int)

  function ApplyOp(entries: Entries, op: Op): Entries {
    match op
    case Record(key, now, name) => RecordedEntries(entries, key, now, name)
    case Sweep(now) => Pruned(entries, now)
  }

  function Run(ops: seq<Op>): Entries {
    if ops == [] then map[] else ApplyOp(Run(ops[..|ops| - 1]), ops[|ops| - 1])
  }

  function ResultAt(ops: seq<Op>, i: nat): Option<Recorded>
    requires i < |ops| && ops[i].Record?
  {
    Answer(Pruned(Run(ops[..i]), ops[i].now), ops[i].key, ops[i].name)
  }

  /** `Instant` never goes back. */
  ghost predicate Clock(ops: seq<Op>) {
    forall i, j :: 0 <= i <= j < |ops| ==> ops[i].now <= ops[j].now
  }

  ghost predicate AllBy(ops: seq<Op>, t: int) {
    forall i :: 0 <= i < |ops| ==> ops[i].now <= t
  }

  /** The cap and the age bound hold after every operation, whatever the clock does. */
  lemma {:induction false} Bounded(ops: seq<Op>)
    ensures |Run(ops)| <= 10_000
    ensures ops != [] ==> forall k :: k in Run(ops) ==> Live(Run(ops)[k], ops[|ops| - 1].now)
    decreases |ops|
  {
    if ops != [] {
      var n := |ops| - 1;
      Bounded(ops[..n]);
      PrunedShrinks(Run(ops[..n]), ops[n].now);
    }
  }

  lemma PrunedShrinks(entries: Entries, now: int)
    ensures |Pruned(entries, now)| <= |entries|
  {
    SubsetSize(Pruned(entries, now).Keys, entries.Keys);
  }

  lemma {:induction false} SubsetSize<T>(a: set<T>, b: set<T>)
    requires a <= b
    ensures |a| <= |b|
  {
    if a != {} {
      var x :| x in a;
      SubsetSize(a - {x}, b - {x});
    }
  }

  function KeysIn(ops: seq<Op>): set<AggKey> {
    set i | 0 <= i < |ops| && ops[i].Record? :: ops[i].key
  }

  lemma {:induction false} OnlyRecordedKeys(ops: seq<Op>)
    ensures Run(ops).Keys <= KeysIn(ops)
    decreases |ops|
  {
    if ops != [] {
      var n := |ops| - 1;
      OnlyRecordedKeys(ops[..n]);
      assert forall k :: k in KeysIn(ops[..n]) ==> k in KeysIn(ops);
      assert ops[n].Record? ==> ops[n].key in KeysIn(ops);
    }
  }

  /** A capture is dropped only after as many distinct keys as the cap allows. */
  lemma NothingDroppedBelowCap(ops: seq<Op>, i: nat)
    requires i < |ops| && ops[i].Record? && |KeysIn(ops[..i])| < 10_000
    ensures ResultAt(ops, i).Some?
  {
    OnlyRecordedKeys(ops[..i]);
    SubsetSize(Pruned(Run(ops[..i]), ops[i].now).Keys, KeysIn(ops[..i]));
  }

  // ----- refinement of a map that is never swept -----

  /** The reference: every key's latest entry for ever; age is looked at only when asked. */
  function Unswept(ops: seq<Op>): Entries {
    if ops == [] then map[]
    else
      var before := Unswept(ops[..|ops| - 1]);
      match ops[|ops| - 1]
      case Sweep(_) => before
      case Record(key, now, name) =>
        if key in before && Live(before[key], now) then before[key := Bumped(before[key])]
        else if |Pruned(before, now)| >= MAX_KEYS then before
        else before[key := Entry(name, 1, now)]
  }

  function ReferenceAt(ops: seq<Op>, i: nat): Option<Recorded>
    requires i < |ops| && ops[i].Record?
  {
    Answer(Pruned(Unswept(ops[..i]), ops[i].now), ops[i].key, ops[i].name)
  }

  lemma PrunedTwice(entries: Entries, s: int, t: int)
    requires s <= t
    ensures Pruned(Pruned(entries, s), t) == Pruned(entries, t)
  {
  }

  lemma PrunedUpdate(a: Entries, b: Entries, key: AggKey, e: Entry, t: int)
    requires Pruned(a, t) == Pruned(b, t)
    ensures Pruned(a[key := e], t) == Pruned(b[key := e], t)
  {
    assert forall k :: k in a && Live(a[k], t) <==> k in Pruned(a, t);
    assert forall k :: k in b && Live(b[k], t) <==> k in Pruned(b, t);
    assert forall k :: k in Pruned(a, t) ==> Pruned(a, t)[k] == a[k] && Pruned(b, t)[k] == b[k];
  }

  lemma {:induction false} LiveEntriesAgree(ops: seq<Op>, t: int)
    requires Clock(ops) && AllBy(ops, t)
    ensures Pruned(Run(ops), t) == Pruned(Unswept(ops), t)
    decreases |ops|
  {
    if ops != [] {
      var n := |ops| - 1;
      var entries, ref, now := Run(ops[..n]), Unswept(ops[..n]), ops[n].now;
      LiveEntriesAgree(ops[..n], t);
      PrunedTwice(entries, now, t);
      if ops[n].Record? {
        LiveEntriesAgree(ops[..n], now);
        var key, live := ops[n].key, Pruned(entries, now);
        assert key in live <==> key in ref && Live(ref[key], now);
        if key in live {
          assert live[key] == ref[key];
          PrunedUpdate(live, ref, key, Bumped(live[key]), t);
        } else if |live| < MAX_KEYS {
          PrunedUpdate(live, ref, key, Entry(ops[n].name, 1, now), t);
        }
      }
    }
  }

  lemma RefinesUnswept(ops: seq<Op>, i: nat)
    requires Clock(ops) && i < |ops| && ops[i].Record?
    ensures ResultAt(ops, i) == ReferenceAt(ops, i)
  {
    LiveEntriesAgree(ops[..i], ops[i].now);
  }

  // ----- sweeps are unobservable -----

  function RecordsOnly(ops: seq<Op>): (r: seq<Op>)
    ensures forall i :: 0 <= i < |r| ==> r[i].Record? && r[i] in ops
  {
    if ops == [] then []
    else
      var n := |ops| - 1;
      if ops[n].Record? then RecordsOnly(ops[..n]) + [ops[n]] else RecordsOnly(ops[..n])
  }

  lemma {:induction false} UnsweptIgnoresSweeps(ops: seq<Op>)
    ensures Unswept(RecordsOnly(ops)) == Unswept(ops)
    decreases |ops|
  {
    if ops != [] {
      var n := |ops| - 1;
      UnsweptIgnoresSweeps(ops[..n]);
      if ops[n].Record? {
        var rest := RecordsOnly(ops[..n]);
        assert (rest + [ops[n]])[..|rest|] == rest;
      }
    }
  }

  lemma {:induction false} RecordsOnlySplits(ops: seq<Op>, i: nat)
    requires i < |ops| && ops[i].Record?
    ensures var k := |RecordsOnly(ops[..i])|;
            k < |RecordsOnly(ops)| && RecordsOnly(ops)[k] == ops[i] && RecordsOnly(ops)[..k] == RecordsOnly(ops[..i])
    decreases |ops|
  {
    var n := |ops| - 1;
    if i < n {
      assert ops[..n][..i] == ops[..i];
      RecordsOnlySplits(ops[..n], i);
    }
  }

  lemma {:induction false} RecordsOnlyKeepsClock(ops: seq<Op>)
    requires Clock(ops)
    ensures Clock(RecordsOnly(ops))
    decreases |ops|
  {
    if ops != [] {
      RecordsOnlyKeepsClock(ops[..|ops| - 1]);
    }
  }

  /** Deleting every sweep from a run, so inserting any, changes no answer. */
  lemma SweepsAreUnobservable(ops: seq<Op>, i: nat)
    requires Clock(ops) && i < |ops| && ops[i].Record?
    ensures var k := |RecordsOnly(ops[..i])|;
            k < |RecordsOnly(ops)| && RecordsOnly(ops)[k] == ops[i]
            && ResultAt(RecordsOnly(ops), k) == ResultAt(ops, i)
  {
    RecordsOnlySplits(ops, i);
    RecordsOnlyKeepsClock(ops);
    RefinesUnswept(ops, i);
    RefinesUnswept(RecordsOnly(ops), |RecordsOnly(ops[..i])|);
    UnsweptIgnoresSweeps(ops[..i]);
  }

  // ----- one CREATE, then PATCHes -----

  datatype Accepted = Accepted(now: int, name: string, r: Recorded)

  /** The accepted captures of one key, in order. */
  function AcceptedOf(ops: seq<Op>, key: AggKey): seq<Accepted> {
    if ops == [] then []
    else
      var n := |ops| - 1;
      var before := AcceptedOf(ops[..n], key);
      if ops[n].Record? && ops[n].key == key && ResultAt(ops, n).Some?
      then before + [Accepted(ops[n].now, ops[n].name, ResultAt(ops, n).value)] else before
  }

  /** When the current block was created. */
  function Start(a: seq<Accepted>): int
    requires a != []
  {
    var n := |a| - 1;
    if a[n].r.isNew || n == 0 then a[n].now else Start(a[..n])
  }

  /**
   A CREATE opens a block, under the name made for that capture, exactly when there is no block
   younger than the TTL; otherwise the capture PATCHes the open block with the next count.
   */
  ghost predicate InBlocks(a: seq<Accepted>) {
    a == [] ||
    (var n := |a| - 1;
     var before, last := a[..n], a[n];
     && InBlocks(before)
     && (last.r.isNew <==> before == [] || Elapsed(last.now, Start(before)) >= TTL)
     && (last.r.isNew ==> last.r.count == 1 && last.r.name == last.name)
     && (!last.r.isNew ==> last.r.count == before[n - 1].r.count + 1 && last.r.name == before[n - 1].r.name))
  }

  /** The reference map holds the open block of each key. */
  ghost predicate OpenBlock(entries: Entries, key: AggKey, a: seq<Accepted>) {
    && (key in entries <==> a != [])
    && (a != [] ==> var last := a[|a| - 1].r; entries[key] == Entry(last.name, last.count, Start(a)))
  }

  lemma {:induction false} CallsFormBlocks(ops: seq<Op>, key: AggKey)
    requires Clock(ops)
    ensures InBlocks(AcceptedOf(ops, key))
    ensures OpenBlock(Unswept(ops), key, AcceptedOf(ops, key))
    decreases |ops|
  {
    if ops != [] {
      var n := |ops| - 1;
      CallsFormBlocks(ops[..n], key);
      if ops[n].Record? {
        RefinesUnswept(ops, n);
        var before, ref := AcceptedOf(ops[..n], key), Unswept(ops[..n]);
        if ops[n].key == key && ResultAt(ops, n).Some? {
          BlockGrows(before, ref, ops[n], ResultAt(ops, n).value);
        }
      }
    }
  }

  lemma BlockGrows(before: seq<Accepted>, ref: Entries, op: Op, r: Recorded)
    requires op.Record? && InBlocks(before) && OpenBlock(ref, op.key, before)
    requires Answer(Pruned(ref, op.now), op.key, op.name) == Some(r)
    ensures var a := before + [Accepted(op.now, op.name, r)];
            InBlocks(a)
            && OpenBlock(ref[op.key := if r.isNew then Entry(op.name, 1, op.now) else Bumped(ref[op.key])], op.key, a)
  {
    var a := before + [Accepted(op.now, op.name, r)];
    assert a[..|before|] == before;
    assert op.key in Pruned(ref, op.now) <==> op.key in ref && Live(ref[op.key], op.now);
  }

  ghost predicate InOrder(a: seq<Accepted>) {
    forall i, j :: 0 <= i <= j < |a| ==> a[i].now <= a[j].now
  }

  lemma {:induction false} AcceptedInOrder(ops: seq<Op>, key: AggKey)
    requires Clock(ops)
    ensures InOrder(AcceptedOf(ops, key))
    ensures forall i :: 0 <= i < |AcceptedOf(ops, key)| ==> AcceptedOf(ops, key)[i].now <= ops[|ops| - 1].now
    decreases |ops|
  {
    if ops != [] {
      AcceptedInOrder(ops[..|ops| - 1], key);
    }
  }

  /** The block open after `a` was created no earlier than any CREATE in `a`. */
  lemma {:induction false} StartIsLatest(a: seq<Accepted>, i: nat)
    requires i < |a| && a[i].r.isNew && InOrder(a)
    ensures a[i].now <= Start(a)
    decreases |a|
  {
    var n := |a| - 1;
    if i < n && !a[n].r.isNew {
      StartIsLatest(a[..n], i);
    }
  }

  lemma {:induction false} PrefixInBlocks(a: seq<Accepted>, n: nat)
    requires InBlocks(a) && n <= |a|
    ensures InBlocks(a[..n])
    decreases |a|
  {
    if n < |a| {
      assert a[..|a| - 1][..n] == a[..n];
      PrefixInBlocks(a[..|a| - 1], n);
    } else {
      assert a[..n] == a;
    }
  }

  lemma CreatesApartIn(a: seq<Accepted>, i: nat, j: nat)
    requires InBlocks(a) && InOrder(a) && i < j < |a| && a[i].r.isNew && a[j].r.isNew
    ensures a[j].now - a[i].now >= TTL
  {
    var upto := a[..j + 1];
    PrefixInBlocks(a, j + 1);
    assert upto[..j] == a[..j];
    StartIsLatest(a[..j], i);
  }

  /** Two CREATEs for one key are at least the TTL apart. */
  lemma CreatesAreApart(ops: seq<Op>, key: AggKey, i: nat, j: nat)
    requires Clock(ops) && i < j < |AcceptedOf(ops, key)|
    requires AcceptedOf(ops, key)[i].r.isNew && AcceptedOf(ops, key)[j].r.isNew
    ensures AcceptedOf(ops, key)[j].now - AcceptedOf(ops, key)[i].now >= 3_600_000_000_000
  {
    CallsFormBlocks(ops, key);
    AcceptedInOrder(ops, key);
    CreatesApartIn(AcceptedOf(ops, key), i, j);
  }

  /** The final counts of the blocks that were closed by a CREATE at or before index `n`. */
  function Closed(a: seq<Accepted>, n: nat): nat
    requires n < |a|
  {
    if n == 0 then 0 else Closed(a, n - 1) + if a[n].r.isNew then a[n - 1].r.count else 0
  }

  /** The sum over all blocks of the last count reported for the block. */
  function TotalCounted(a: seq<Accepted>): nat {
    if a == [] then 0 else Closed(a, |a| - 1) + a[|a| - 1].r.count
  }

  lemma {:induction false} CountedSoFar(a: seq<Accepted>, n: nat)
    requires InBlocks(a) && n < |a|
    ensures Closed(a, n) + a[n].r.count == n + 1
  {
    PrefixInBlocks(a, n + 1);
    assert a[..n + 1][..n] == a[..n];
    if n > 0 {
      CountedSoFar(a, n - 1);
    } else {
      assert a[..0] == [];
    }
  }

  lemma AllCounted(a: seq<Accepted>)
    requires InBlocks(a)
    ensures TotalCounted(a) == |a|
  {
    if a != [] {
      CountedSoFar(a, |a| - 1);
    }
  }

  /** Every accepted capture is counted, in exactly one block. */
  lemma EveryCaptureCountedOnce(ops: seq<Op>, key: AggKey)
    requires Clock(ops)
    ensures TotalCounted(AcceptedOf(ops, key)) == |AcceptedOf(ops, key)|
  {
    CallsFormBlocks(ops, key);
    AllCounted(AcceptedOf(ops, key));
  }
}
