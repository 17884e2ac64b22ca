/**
 Draining the kernel's core stream: through the encoder and the hashing writer into the object
 store's sink, or to nowhere. The environment (reader, encoder output, sink, deadline) is an
 arbitrary script, so a theorem about every script is one about every execution that ends.
 */
module Drain {
  import opened Text

  type Bytes = seq<bv8>

  const U64_MAX: nat := 0xFFFF_FFFF_FFFF_FFFF

  datatype Result<+T, +E> = Ok(value: T) | Err(error: E)

  datatype TruncatedReason = SizeCap | StreamError

  datatype DrainError = Deadline | WriteError | ShutdownError

  datatype CoreStats = CoreStats(
    bytes: nat,
    storedBytes: nat,
    sha256: Option<string>,
    truncated: bool,
    truncatedReason: Option<TruncatedReason>)

  // ----- scripts -----

  /** One attempt by the encoder to write `buf` into the sink, and what the sink did with it. */
  datatype PollAttempt = Ready(buf: Bytes, n: nat) | Pending(buf: Bytes) | Failed(buf: Bytes)

  /** A writer never claims to have taken more than it was offered. */
  type Poll = p: PollAttempt | p.Ready? ==> p.n <= |p.buf| witness Pending([])

  /** How one `write_all` raced against the deadline: done, an IO error, or out of time. */
  datatype WriteEnd = Written | WriteFailed | WriteElapsed

  /** A read of `data`, and the write that follows it if any of it is to be stored. */
  datatype Chunk = Chunk(data: Bytes, polls: seq<Poll>, write: WriteEnd)

  /** How the last read raced against the deadline. */
  datatype ReadEnd = Eof | ReadError | ReadElapsed

  datatype ShutdownEnd = Finished | ShutdownFailed | ShutdownElapsed

  datatype Script = Script(chunks: seq<Chunk>, end: ReadEnd, polls: seq<Poll>, shutdown: ShutdownEnd)

  /** A read that returns no bytes is the end of the stream, so every chunk has some. */
  ghost predicate WellFormed(chunks: seq<Chunk>) {
    forall i :: 0 <= i < |chunks| ==> chunks[i].data != []
  }

  /** The stream the reader delivered. */
  function Stream(chunks: seq<Chunk>): Bytes {
    if chunks == [] then [] else Stream(chunks[..|chunks| - 1]) + chunks[|chunks| - 1].data
  }

  function Cap(maxCoreBytes: nat): nat {
    if maxCoreBytes == 0 then U64_MAX else maxCoreBytes
  }

  function Min(a: nat, b: nat): nat {
    if a <= b then a else b
  }

  function Stored(s: Bytes, cap: nat): Bytes {
    s[..Min(cap, |s|)]
  }

  /** The write for chunk `i` happens (the cap is not used up yet) and does not succeed. */
  ghost predicate WriteStops(chunks: seq<Chunk>, cap: nat, i: nat)
    requires i < |chunks|
  {
    |Stream(chunks[..i])| < cap && chunks[i].write != Written
  }

  ghost predicate LoopCompletes(script: Script, cap: nat) {
    (forall i :: 0 <= i < |script.chunks| ==> !WriteStops(script.chunks, cap, i)) && script.end != ReadElapsed
  }

  /** Why the stored core is incomplete: a read error outranks the cap. */
  function Reason(script: Script, cap: nat): Option<TruncatedReason> {
    if script.end == ReadError then Some(StreamError)
    else if |Stream(script.chunks)| > cap then Some(SizeCap)
    else None
  }

  // ----- the sink and the writers around it -----

  datatype SinkOp = Abort | ShutdownPolled | ShutdownDone

  class Sink {
    var accepted: Bytes
    /** The upload's lifecycle calls, in order. */
    var ops: seq<SinkOp>

    constructor ()
      ensures accepted == [] && ops == []
    {
      accepted, ops := [], [];
    }
  }

  class HashingWriter {
    const inner: Sink
    /** Everything the hasher was fed. */
    var hashed: Bytes
    var bytes: nat

    constructor (sink: Sink)
      ensures inner == sink && hashed == [] && bytes == 0
    {
      inner, hashed, bytes := sink, [], 0;
    }

    /** The hash and the count cover exactly what the sink took. */
    ghost predicate Valid()
      reads this, inner
    {
      hashed == inner.accepted && bytes == |inner.accepted|
    }

    method PollWrite(poll: Poll)
      requires Valid()
      modifies this`hashed, this`bytes, inner`accepted
      ensures Valid()
      ensures inner.accepted == old(inner.accepted) + if poll.Ready? then poll.buf[..poll.n] else []
    {
      if poll.Ready? {
        inner.accepted := inner.accepted + poll.buf[..poll.n];
        hashed := hashed + poll.buf[..poll.n];
        bytes := bytes + poll.n;
      } else {
        assert inner.accepted + [] == inner.accepted;
      }
    }

    method PollAll(polls: seq<Poll>)
      requires Valid()
      modifies this`hashed, this`bytes, inner`accepted
      ensures Valid()
      ensures inner.accepted == old(inner.accepted) + Accepted(polls)
    {
      for i := 0 to |polls|
        invariant Valid()
        invariant inner.accepted == old(inner.accepted) + Accepted(polls[..i])
      {
        assert polls[..i + 1][..i] == polls[..i];
        PollWrite(polls[i]);
      }
      assert polls[..|polls|] == polls;
    }
  }

  /** What the sink takes from a run of attempts, short writes included. */
  function Accepted(polls: seq<Poll>): Bytes {
    if polls == [] then []
    else
      var p := polls[|polls| - 1];
      Accepted(polls[..|polls| - 1]) + if p.Ready? then p.buf[..p.n] else []
  }

  /** The error with which the write for a chunk stops the loop, `sofar` bytes into the stream. */
  function ChunkStops(chunk: Chunk, sofar: nat, cap: nat): Option<DrainError> {
    if sofar >= cap || chunk.write == Written then None
    else Some(if chunk.write == WriteElapsed then Deadline else WriteError)
  }

  /** The error of the first write that stops the loop. */
  function StopsAt(chunks: seq<Chunk>, cap: nat): Option<DrainError> {
    if chunks == [] then None
    else
      var n := |chunks| - 1;
      if StopsAt(chunks[..n], cap).Some? then StopsAt(chunks[..n], cap)
      else ChunkStops(chunks[n], |Stream(chunks[..n])|, cap)
  }

  /** The bytes the sink takes from the writes, up to and including the one that stops the loop. */
  function AcceptedBy(chunks: seq<Chunk>, cap: nat): Bytes {
    if chunks == [] then []
    else
      var n := |chunks| - 1;
      AcceptedBy(chunks[..n], cap)
      + if StopsAt(chunks[..n], cap).None? && |Stream(chunks[..n])| < cap then Accepted(chunks[n].polls) else []
  }

  /** The error of a loop that does not complete: a write's, or the deadline while reading. */
  function LoopStops(script: Script, cap: nat): Option<DrainError> {
    if StopsAt(script.chunks, cap).Some? then StopsAt(script.chunks, cap)
    else if script.end == ReadElapsed then Some(Deadline)
    else None
  }

  class Encoder {
    const inner: HashingWriter
    /** The uncompressed bytes handed to the encoder. */
    var fed: Bytes

    constructor (writer: HashingWriter)
      ensures inner == writer && fed == []
    {
      inner, fed := writer, [];
    }

    /** `write_all` under the deadline. Only a completed write is known to have fed all of `data`. */
    method WriteAll(data: Bytes, polls: seq<Poll>, end: WriteEnd)
      requires inner.Valid()
      modifies this`fed, inner`hashed, inner`bytes, inner.inner`accepted
      ensures inner.Valid()
      ensures inner.inner.accepted == old(inner.inner.accepted) + Accepted(polls)
      ensures end == Written ==> fed == old(fed) + data
    {
      inner.PollAll(polls);
      if end == Written {
        fed := fed + data;
      }
    }
  }

  datatype Drained = Drained(drained: nat, storedBytes: nat, sha256: string, reason: Option<TruncatedReason>)

  // ----- the two backends -----

  /** The writing half of one turn of the loop, after a read that brought the stream to `sofar` and then `chunk`. */
  method WriteChunk(chunk: Chunk, encoder: Encoder, cap: nat, written: nat, ghost sofar: Bytes)
    returns (stopped: Option<DrainError>, total: nat, capped: bool)
    requires chunk.data != [] && written == Min(cap, |sofar|)
    requires encoder.fed == Stored(sofar, cap) && encoder.inner.Valid()
    modifies encoder`fed, encoder.inner`hashed, encoder.inner`bytes, encoder.inner.inner
    ensures encoder.inner.Valid()
    ensures stopped == ChunkStops(chunk, |sofar|, cap)
    ensures encoder.inner.inner.ops == old(encoder.inner.inner.ops) + if stopped.Some? then [Abort] else []
    ensures encoder.inner.inner.accepted
         == old(encoder.inner.inner.accepted) + if |sofar| < cap then Accepted(chunk.polls) else []
    ensures stopped.None? ==>
              && encoder.fed == Stored(sofar + chunk.data, cap)
              && total == Min(cap, |sofar + chunk.data|)
              && (capped <==> |sofar + chunk.data| > cap)
  {
    var sink, data := encoder.inner.inner, chunk.data;
    var take := Min(|data|, cap - written);
    TakeFillsCap(sofar, data, cap, take);
    total, stopped := written + take, None;
    capped := take < |data|;
    if take > 0 {
      encoder.WriteAll(data[..take], chunk.polls, chunk.write);
      if chunk.write != Written {
        sink.ops := sink.ops + [Abort];
        stopped := Some(if chunk.write == WriteElapsed then Deadline else WriteError);
      }
    }
  }

  /**
   The read/write loop. `stopped` is the error of a loop that did not complete; such a loop has
   aborted the upload, exactly once. Whatever happens, the hash covers what the sink took.
   */
  method ReadLoop(script: Script, encoder: Encoder, cap: nat)
    returns (stopped: Option<DrainError>, drained: nat, reason: Option<TruncatedReason>)
    requires WellFormed(script.chunks)
    requires encoder.fed == [] && encoder.inner.Valid()
    requires encoder.inner.inner.accepted == [] && encoder.inner.inner.ops == []
    modifies encoder, encoder.inner, encoder.inner.inner
    ensures encoder.inner.Valid()
    ensures stopped == LoopStops(script, cap)
    ensures encoder.inner.inner.ops == if stopped.None? then [] else [Abort]
    ensures encoder.inner.inner.accepted == AcceptedBy(script.chunks, cap)
    ensures stopped.None? ==>
              && drained == |Stream(script.chunks)|
              && encoder.fed == Stored(Stream(script.chunks), cap)
              && reason == Reason(script, cap)
  {
    var sink, chunks := encoder.inner.inner, script.chunks;
    var written := 0;
    drained, reason := 0, None;
    for i := 0 to |chunks|
      invariant sink.ops == [] && encoder.inner.Valid()
      invariant StopsAt(chunks[..i], cap) == None
      invariant drained == |Stream(chunks[..i])|
      invariant encoder.fed == Stored(Stream(chunks[..i]), cap)
      invariant written == Min(cap, drained)
      invariant reason == if drained > cap then Some(SizeCap) else None
      invariant sink.accepted == AcceptedBy(chunks[..i], cap)
    {
      ChunkStep(chunks, i, cap);
      drained := drained + |chunks[i].data|;
      var capped;
      stopped, written, capped := WriteChunk(chunks[i], encoder, cap, written, Stream(chunks[..i]));
      if stopped.Some? {
        StopIsFinal(chunks, i + 1, cap);
        return;
      }
      if capped && reason == None {
        reason := Some(SizeCap);
      }
    }
    assert chunks[..|chunks|] == chunks;
    match script.end
    case ReadElapsed =>
      sink.ops := sink.ops + [Abort];
      stopped := Some(Deadline);
    case ReadError =>
      reason := Some(StreamError);
      stopped := None;
    case Eof =>
      stopped := None;
  }

  /** The result of the stream, error kind included, as a function of the script. */
  function StreamResult(script: Script, maxCoreBytes: nat, sha: Bytes -> string): Result<Drained, DrainError> {
    var stopped, accepted := LoopStops(script, Cap(maxCoreBytes)), AllAccepted(script, maxCoreBytes);
    if stopped.Some? then Err(stopped.value)
    else match script.shutdown
      case ShutdownElapsed => Err(Deadline)
      case ShutdownFailed => Err(ShutdownError)
      case Finished => Ok(Drained(|Stream(script.chunks)|, |accepted|, sha(accepted),
                                  Reason(script, Cap(maxCoreBytes))))
  }

  /** What the sink has taken when the stream ends, in whatever way. */
  function AllAccepted(script: Script, maxCoreBytes: nat): Bytes {
    var cap := Cap(maxCoreBytes);
    AcceptedBy(script.chunks, cap) + if LoopStops(script, cap).None? then Accepted(script.polls) else []
  }

  /**
   Stream the core, storing the first `Cap(maxCoreBytes)` bytes of it. The result, the bytes the sink
   took and the sink's lifecycle are fixed for every script: a loop that stops aborts exactly once and
   never polls shutdown; a loop that completes polls shutdown once and never aborts.
   */
  method StreamCoreThroughZstd(script: Script, sink: Sink, maxCoreBytes: nat, sha: Bytes -> string)
    returns (r: Result<Drained, DrainError>, encoder: Encoder)
    requires WellFormed(script.chunks)
    requires sink.accepted == [] && sink.ops == []
    modifies sink
    ensures encoder.inner.inner == sink
    ensures r == StreamResult(script, maxCoreBytes, sha)
    ensures sink.accepted == AllAccepted(script, maxCoreBytes)
    ensures sink.ops == if !LoopCompletes(script, Cap(maxCoreBytes)) then [Abort]
                        else if r.Err? then [ShutdownPolled]
                        else [ShutdownPolled, ShutdownDone]
    ensures r.Ok? ==> encoder.fed == Stored(Stream(script.chunks), Cap(maxCoreBytes))
    ensures r.Ok? && maxCoreBytes == 0 && |Stream(script.chunks)| < 0x1_0000_0000_0000_0000 ==>
              encoder.fed == Stream(script.chunks)
              && r.value.reason == if script.end == ReadError then Some(StreamError) else None
    ensures r.Ok? && maxCoreBytes > 0 ==>
              var stream := Stream(script.chunks);
              && encoder.fed <= stream
              && |encoder.fed| == (if |stream| <= maxCoreBytes then |stream| else maxCoreBytes)
              && r.value.reason == if script.end == ReadError then Some(StreamError)
                                   else if |stream| > maxCoreBytes then Some(SizeCap)
                                   else None
    ensures script.end == ReadElapsed
            && (forall i :: 0 <= i < |script.chunks| ==> !WriteStops(script.chunks, Cap(maxCoreBytes), i)) ==>
              r == Err(Deadline)
    ensures LoopCompletes(script, Cap(maxCoreBytes)) ==>
              && sink.accepted == AcceptedBy(script.chunks, Cap(maxCoreBytes)) + Accepted(script.polls)
              && (script.shutdown == ShutdownElapsed ==> r == Err(Deadline))
              && (script.shutdown == ShutdownFailed ==> r == Err(ShutdownError))
              && (script.shutdown == Finished ==>
                    && r.Ok? && r.value.drained == |Stream(script.chunks)|
                    && r.value.storedBytes == |sink.accepted| && r.value.sha256 == sha(sink.accepted))
  {
    CompletesIff(script, Cap(maxCoreBytes));
    NoStopNoError(script.chunks, Cap(maxCoreBytes));
    var hashing := new HashingWriter(sink);
    encoder := new Encoder(hashing);
    var stopped, drained, reason := ReadLoop(script, encoder, Cap(maxCoreBytes));
    if stopped.Some? {
      return Err(stopped.value), encoder;
    }
    sink.ops := sink.ops + [ShutdownPolled];
    hashing.PollAll(script.polls);
    match script.shutdown
    case ShutdownElapsed => return Err(Deadline), encoder;
    case ShutdownFailed => return Err(ShutdownError), encoder;
    case Finished =>
      sink.ops := sink.ops + [ShutdownDone];
      return Ok(Drained(drained, hashing.bytes, sha(hashing.hashed), reason)), encoder;
  }

  lemma ChunkStep(chunks: seq<Chunk>, i: nat, cap: nat)
    requires i < |chunks|
    ensures Stream(chunks[..i + 1]) == Stream(chunks[..i]) + chunks[i].data
    ensures StopsAt(chunks[..i], cap).None? ==>
              && StopsAt(chunks[..i + 1], cap) == ChunkStops(chunks[i], |Stream(chunks[..i])|, cap)
              && AcceptedBy(chunks[..i + 1], cap)
                 == AcceptedBy(chunks[..i], cap) + if |Stream(chunks[..i])| < cap then Accepted(chunks[i].polls) else []
  {
    assert chunks[..i + 1][..i] == chunks[..i];
  }

  /** Nothing after the write that stopped the loop matters. */
  lemma {:induction false} StopIsFinal(chunks: seq<Chunk>, i: nat, cap: nat)
    requires i <= |chunks| && StopsAt(chunks[..i], cap).Some?
    ensures StopsAt(chunks, cap) == StopsAt(chunks[..i], cap)
    ensures AcceptedBy(chunks, cap) == AcceptedBy(chunks[..i], cap)
    decreases |chunks|
  {
    if i < |chunks| {
      var n := |chunks| - 1;
      assert chunks[..n][..i] == chunks[..i];
      StopIsFinal(chunks[..n], i, cap);
    } else {
      assert chunks[..i] == chunks;
    }
  }

  /** The recursive form finds a stop exactly when some write stops the loop, and gives the first one's error. */
  lemma {:induction false} FirstStop(chunks: seq<Chunk>, cap: nat, i: nat)
    requires i <= |chunks| && forall k :: 0 <= k < i ==> !WriteStops(chunks, cap, k)
    ensures StopsAt(chunks[..i], cap) == None
    ensures i < |chunks| && WriteStops(chunks, cap, i) ==>
              StopsAt(chunks, cap) == Some(if chunks[i].write == WriteElapsed then Deadline else WriteError)
  {
    if i > 0 {
      FirstStop(chunks, cap, i - 1);
      assert !WriteStops(chunks, cap, i - 1);
      ChunkStep(chunks, i - 1, cap);
    }
    if i < |chunks| && WriteStops(chunks, cap, i) {
      ChunkStep(chunks, i, cap);
      StopIsFinal(chunks, i + 1, cap);
    }
  }

  lemma {:induction false} StopExists(chunks: seq<Chunk>, cap: nat)
    requires StopsAt(chunks, cap).Some?
    ensures exists k :: 0 <= k < |chunks| && WriteStops(chunks, cap, k)
    decreases |chunks|
  {
    var n := |chunks| - 1;
    if StopsAt(chunks[..n], cap).Some? {
      StopExists(chunks[..n], cap);
      var k :| 0 <= k < n && WriteStops(chunks[..n], cap, k);
      assert chunks[..n][..k] == chunks[..k];
      assert WriteStops(chunks, cap, k);
    } else {
      assert WriteStops(chunks, cap, n);
    }
  }

  lemma NoStopNoError(chunks: seq<Chunk>, cap: nat)
    ensures (forall i :: 0 <= i < |chunks| ==> !WriteStops(chunks, cap, i)) ==> StopsAt(chunks, cap).None?
  {
    if forall i :: 0 <= i < |chunks| ==> !WriteStops(chunks, cap, i) {
      FirstStop(chunks, cap, |chunks|);
      assert chunks[..|chunks|] == chunks;
    }
  }

  lemma CompletesIff(script: Script, cap: nat)
    ensures LoopCompletes(script, cap) <==> LoopStops(script, cap).None?
  {
    var chunks := script.chunks;
    if StopsAt(chunks, cap).Some? {
      StopExists(chunks, cap);
    } else if script.end != ReadElapsed && !LoopCompletes(script, cap) {
      var k :| 0 <= k < |chunks| && WriteStops(chunks, cap, k);
      NoStopNoWriteStops(chunks, cap, k);
    }
  }

  lemma NoStopNoWriteStops(chunks: seq<Chunk>, cap: nat, k: nat)
    requires k < |chunks|
    ensures WriteStops(chunks, cap, k) ==> StopsAt(chunks, cap).Some?
  {
    assert chunks[..k + 1][..k] == chunks[..k];
    if StopsAt(chunks[..k + 1], cap).Some? {
      StopIsFinal(chunks, k + 1, cap);
    }
  }

  /** What `take` bytes of the next chunk do: they fill the cap exactly as far as the stream goes. */
  lemma TakeFillsCap(s: Bytes, data: Bytes, cap: nat, take: nat)
    requires data != [] && take == Min(|data|, cap - Min(cap, |s|))
    ensures take > 0 <==> |s| < cap
    ensures Min(cap, |s|) + take == Min(cap, |s| + |data|)
    ensures take < |data| <==> |s| + |data| > cap
    ensures take <= |data| && Stored(s + data, cap) == Stored(s, cap) + data[..take]
    ensures take == 0 ==> Stored(s + data, cap) == Stored(s, cap)
  {
    StoredGrows(s, data, cap);
  }

  lemma StoredGrows(s: Bytes, data: Bytes, cap: nat)
    ensures Stored(s + data, cap)
         == Stored(s, cap) + data[..Min(|data|, cap - Min(cap, |s|))]
  {
  }

  /** `StandaloneBackend::drain_core`: an Ok drain always carries a hash. */
  method DrainStandalone(script: Script, sink: Sink, maxCoreBytes: nat, sha: Bytes -> string)
    returns (r: Result<CoreStats, DrainError>)
    requires WellFormed(script.chunks)
    requires sink.accepted == [] && sink.ops == []
    modifies sink
    ensures r == StandaloneResult(script, maxCoreBytes, sha)
    ensures r.Ok? <==> LoopCompletes(script, Cap(maxCoreBytes)) && script.shutdown == Finished
    ensures ShutdownPolled in sink.ops <==> LoopCompletes(script, Cap(maxCoreBytes))
    ensures sink.accepted == AllAccepted(script, maxCoreBytes)
  {
    CompletesIff(script, Cap(maxCoreBytes));
    var drained, _ := StreamCoreThroughZstd(script, sink, maxCoreBytes, sha);
    match drained
    case Err(e) => r := Err(e);
    case Ok(d) =>
      r := Ok(CoreStats(d.drained, d.storedBytes, Some(d.sha256), d.reason.Some?, d.reason));
  }

  function StandaloneResult(script: Script, maxCoreBytes: nat, sha: Bytes -> string): Result<CoreStats, DrainError> {
    match StreamResult(script, maxCoreBytes, sha)
    case Err(e) => Err(e)
    case Ok(d) => Ok(CoreStats(d.drained, d.storedBytes, Some(d.sha256), d.reason.Some?, d.reason))
  }

  /** `DiscardBackend::drain_core`: count, store nothing. */
  method DrainDiscard(blocks: seq<Bytes>, end: ReadEnd) returns (r: Result<CoreStats, DrainError>)
    ensures r == DiscardResult(blocks, end)
    ensures end == ReadElapsed ==> r == Err(Deadline)
    ensures end != ReadElapsed ==>
              && r.Ok? && r.value.bytes == |Concat(blocks)| && r.value.storedBytes == 0 && r.value.sha256 == None
              && r.value.truncated == (end == ReadError)
              && r.value.truncatedReason == if end == ReadError then Some(StreamError) else None
  {
    var bytes := 0;
    for i := 0 to |blocks|
      invariant bytes == |Concat(blocks[..i])|
    {
      assert blocks[..i + 1][..i] == blocks[..i];
      bytes := bytes + |blocks[i]|;
    }
    assert blocks[..|blocks|] == blocks;
    match end
    case ReadElapsed => r := Err(Deadline);
    case Eof => r := Ok(CoreStats(bytes, 0, None, false, None));
    case ReadError => r := Ok(CoreStats(bytes, 0, None, true, Some(StreamError)));
  }

  function Concat(blocks: seq<Bytes>): Bytes {
    if blocks == [] then [] else Concat(blocks[..|blocks| - 1]) + blocks[|blocks| - 1]
  }

  function DiscardResult(blocks: seq<Bytes>, end: ReadEnd): Result<CoreStats, DrainError> {
    if end == ReadElapsed then Err(Deadline)
    else Ok(CoreStats(|Concat(blocks)|, 0, None, end == ReadError,
                      if end == ReadError then Some(StreamError) else None))
  }

  /**
   The two drains of one stream, however each cuts it up, with the same reader and the same clock.
   Whenever storing succeeds discarding does too, with the same count; what discarding survives and
   storing does not is a write that stops or a shutdown that does not finish. The truncation flags
   differ exactly when the stream outgrew the cap without a read error.
   */
  lemma BackendsAgree(script: Script, blocks: seq<Bytes>, maxCoreBytes: nat, sha: Bytes -> string)
    requires Stream(script.chunks) == Concat(blocks)
    ensures var a, b := StandaloneResult(script, maxCoreBytes, sha), DiscardResult(blocks, script.end);
            var cap := Cap(maxCoreBytes);
            && (a.Ok? ==> b.Ok? && a.value.bytes == b.value.bytes && a.value.sha256.Some? && b.value.sha256.None?)
            && (a.Err? && b.Ok? <==>
                  script.end != ReadElapsed
                  && ((exists i :: 0 <= i < |script.chunks| && WriteStops(script.chunks, cap, i))
                      || script.shutdown != Finished))
            && (a.Ok? && script.end == ReadError ==>
                  a.value.truncatedReason == b.value.truncatedReason == Some(StreamError))
            && (a.Ok? ==> (a.value.truncated != b.value.truncated
                           <==> script.end != ReadError && |Concat(blocks)| > cap))
  {
    CompletesIff(script, Cap(maxCoreBytes));
  }
}
