/**
 Batching one logical stream: whole packets gathered into chunks no larger than
 the native limit, each chunk with its own upload arena, and how the outcome of
 admission becomes the outcome of the call.
 */
module Packets {
  import opened Common
  import D = Dispatch
  import DR = DispatchRuns
  import DL = DispatchLaws

  const ARENAS: nat := 4
  const MAX_STREAM: nat := 536870912

  datatype PacketError = TooLarge
  datatype Chunk = Chunk(bytes: seq<byte>, arena: Option<nat>)

  function Join(parts: seq<seq<byte>>): seq<byte> {
    if parts == [] then [] else Join(parts[..|parts| - 1]) + parts[|parts| - 1]
  }

  function Stream(chunks: seq<Chunk>): seq<byte> {
    if chunks == [] then [] else Stream(chunks[..|chunks| - 1]) + chunks[|chunks| - 1].bytes
  }

  /** The packets of every chunk, in order, make up the stream. */
  function Regroup(groups: seq<seq<seq<byte>>>): seq<seq<byte>> {
    if groups == [] then [] else Regroup(groups[..|groups| - 1]) + groups[|groups| - 1]
  }

  /** An upload range and the chunk it was reserved for. */
  datatype Upload = Upload(chunk: nat, arena: nat, start: nat, end: nat)

  /** Each finished chunk holds whole packets, within the limit. */
  ghost predicate Batched(chunks: seq<Chunk>, groups: seq<seq<seq<byte>>>, limit: nat) {
    |groups| == |chunks| && forall k :: 0 <= k < |chunks| ==>
      chunks[k].bytes == Join(groups[k]) && |chunks[k].bytes| <= limit
      && (chunks[k].arena.Some? ==> chunks[k].arena.value == k % ARENAS)
  }

  /** Ranges lie in their arena, no two of one chunk overlap, and each chunk names the arena of its ranges. */
  ghost predicate Placed(uploads: seq<Upload>, chunks: seq<Chunk>, current: Chunk, offset: nat, limit: nat) {
    && (forall u :: 0 <= u < |uploads| ==>
          && uploads[u].chunk <= |chunks| && uploads[u].arena == uploads[u].chunk % ARENAS
          && uploads[u].start <= uploads[u].end <= limit
          && (uploads[u].chunk == |chunks| ==> uploads[u].end <= offset && current.arena == Some(uploads[u].arena))
          && (uploads[u].chunk < |chunks| ==> chunks[uploads[u].chunk].arena == Some(uploads[u].arena)))
    && (forall u, v :: 0 <= u < v < |uploads| && uploads[u].chunk == uploads[v].chunk ==>
      uploads[u].end <= uploads[v].start)
  }

  class Packets {
    var chunks: seq<Chunk>
    var current: Chunk
    var uploadOffset: nat
    var bytes: nat
    const limit: nat
    ghost var groups: seq<seq<seq<byte>>>
    ghost var open: seq<seq<byte>>
    ghost var uploads: seq<Upload>

    ghost predicate Valid()
      reads this
    {
      && 0 < limit && Batched(chunks, groups, limit)
      && current.bytes == Join(open) && |current.bytes| <= limit && uploadOffset <= limit
      && (current.arena.Some? ==> current.arena.value == |chunks| % ARENAS)
      && bytes == |Stream(chunks)| + |current.bytes| <= MAX_STREAM
      && Placed(uploads, chunks, current, uploadOffset, limit)
    }

    /** Every packet appended so far, in order. */
    ghost function Appended(): seq<seq<byte>>
      reads this
    {
      Regroup(groups) + open
    }

    constructor (limit: nat)
      requires limit > 0
      ensures Valid() && Appended() == [] && this.limit == limit && uploads == []
    {
      this.limit := limit;
      chunks, current, uploadOffset, bytes := [], Chunk([], None), 0, 0;
      groups, open, uploads := [], [], [];
    }

    /** Room for `maximum` more bytes in one chunk, rotating before an arena is chosen. */
    method Prepare(maximum: nat) returns (result: Result<(), PacketError>)
      requires Valid()
      modifies this
      ensures Valid() && Appended() == old(Appended()) && bytes == old(bytes) && uploads == old(uploads)
      ensures result.Ok? <==> maximum <= limit
      ensures result.Ok? ==> |current.bytes| + maximum <= limit
      ensures result.Ok? && |old(current).bytes| + maximum <= limit ==> chunks == old(chunks) && current == old(current)
      ensures result.Err? ==> chunks == old(chunks) && current == old(current) && uploadOffset == old(uploadOffset)
    {
      if maximum > limit {
        return Err(TooLarge);
      }
      if |current.bytes| + maximum > limit {
        FinishChunk();
      }
      return Ok(());
    }

    method FinishChunk()
      requires Valid()
      modifies this
      ensures Valid() && Appended() == old(Appended()) && bytes == old(bytes) && uploads == old(uploads)
      ensures chunks == old(chunks) + [old(current)] && current == Chunk([], None) && uploadOffset == 0
      ensures groups == old(groups) + [old(open)] && open == []
    {
      assert (chunks + [current])[..|chunks|] == chunks && (groups + [open])[..|groups|] == groups;
      chunks, groups := chunks + [current], groups + [open];
      current, open, uploadOffset := Chunk([], None), [], 0;
    }

    /** A range of this chunk's arena, disjoint from the chunk's earlier ones. */
    method UploadRange(length: nat) returns (result: Result<(nat, nat), PacketError>)
      requires Valid()
      modifies this
      ensures Valid() && Appended() == old(Appended()) && chunks == old(chunks)
      ensures result.Ok? <==> old(uploadOffset) + length <= 0xFFFF_FFFF && old(uploadOffset) + length <= limit
      ensures result.Ok? ==>
        && result.value == (|chunks| % ARENAS, old(uploadOffset)) && current.arena == Some(|chunks| % ARENAS)
        && uploads == old(uploads)
           + [Upload(|chunks|, |chunks| % ARENAS, old(uploadOffset), old(uploadOffset) + length)]
      ensures result.Err? ==> uploads == old(uploads) && current == old(current)
    {
      var end := uploadOffset + length;
      if end > 0xFFFF_FFFF || end > limit {
        return Err(TooLarge);
      }
      var arena := |chunks| % ARENAS;
      var start := uploadOffset;
      uploads := uploads + [Upload(|chunks|, arena, start, end)];
      current := current.(arena := Some(arena));
      uploadOffset := end;
      return Ok((arena, start));
    }

    /** One packet at the end of the stream, never cut; an oversized one changes nothing. */
    method Append(commands: seq<byte>) returns (result: Result<(), PacketError>)
      requires Valid()
      modifies this
      ensures Valid()
      ensures result.Ok? <==> old(bytes) + |commands| <= MAX_STREAM && |commands| <= limit
      ensures result.Ok? ==> Appended() == old(Appended()) + [commands]
      ensures result.Ok? && |old(current).bytes| + |commands| <= limit ==>
        chunks == old(chunks) && current == old(current).(bytes := old(current).bytes + commands)
      ensures result.Err? ==> Appended() == old(Appended()) && chunks == old(chunks) && current == old(current)
    {
      if bytes + |commands| > MAX_STREAM {
        return Err(TooLarge);
      }
      var prepared := Prepare(|commands|);
      if prepared.Err? {
        return Err(TooLarge);
      }
      assert (open + [commands])[..|open|] == open;
      assert Regroup(groups) + (open + [commands]) == Regroup(groups) + open + [commands];
      current := current.(bytes := current.bytes + commands);
      open, bytes := open + [commands], bytes + |commands|;
      return Ok(());
    }

    /** What finishing gives: the current chunk is added unless it is empty and not the only one. */
    ghost function Finished(): (result: seq<Chunk>)
      reads this
    {
      if current.bytes != [] || chunks == [] then chunks + [current] else chunks
    }

    /** The finished chunks: the whole stream, in at least one chunk. */
    method Finish() returns (result: seq<Chunk>)
      requires Valid()
      modifies this
      ensures result == old(Finished())
      ensures Stream(result) == Join(old(Appended())) && result != []
      ensures forall k :: 0 <= k < |result| ==> |result[k].bytes| <= limit
      ensures forall k :: 0 <= k < |result| && result[k].arena.Some? ==> result[k].arena.value == k % ARENAS
    {
      if current.bytes != [] || chunks == [] {
        FinishChunk();
      }
      StreamIsJoin(chunks, groups, limit);
      EmptyTail(groups, open);
      return chunks;
    }
  }

  lemma {:induction false} JoinConcat(a: seq<seq<byte>>, b: seq<seq<byte>>)
    ensures Join(a + b) == Join(a) + Join(b)
  {
    if b == [] {
      assert a + b == a;
    } else {
      assert (a + b)[..|a + b| - 1] == a + b[..|b| - 1];
      JoinConcat(a, b[..|b| - 1]);
    }
  }

  lemma {:induction false} StreamIsJoin(chunks: seq<Chunk>, groups: seq<seq<seq<byte>>>, limit: nat)
    requires Batched(chunks, groups, limit)
    ensures Stream(chunks) == Join(Regroup(groups))
  {
    if chunks != [] {
      var n := |chunks| - 1;
      StreamIsJoin(chunks[..n], groups[..n], limit);
      JoinConcat(Regroup(groups[..n]), groups[n]);
    }
  }

  lemma EmptyTail(groups: seq<seq<seq<byte>>>, open: seq<seq<byte>>)
    requires Join(open) == []
    ensures Join(Regroup(groups) + open) == Join(Regroup(groups))
  {
    JoinConcat(Regroup(groups), open);
  }

  /** Two chunks of one stream share an arena only when a multiple of four apart. */
  lemma ArenasRotate(chunks: seq<Chunk>, groups: seq<seq<seq<byte>>>, limit: nat, j: nat, k: nat)
    requires Batched(chunks, groups, limit) && j < k < |chunks|
    requires chunks[j].arena.Some? && chunks[j].arena == chunks[k].arena
    ensures (k - j) % ARENAS == 0 && k - j >= ARENAS
  {
  }

  // ------------------------------------------------------------------ outcomes

  datatype HandleError = OutOfResources | InvalidParameter | SystemError

  /** A call either returns or is stopped by an assertion. */
  datatype Called<T> = Returned(value: T) | Stopped

  datatype CallError = Work(error: nat) | SubmissionTooLarge | CompletionUnavailable
  datatype CallOutcome =
    | Submitted(receipt: nat) | Failed(error: CallError, completion: nat) | Busy | Rejected(reason: CallError)

  /** The chunks name arenas the call holds. */
  predicate ArenasPresent(chunks: seq<Chunk>, arenas: seq<nat>) {
    forall k :: 0 <= k < |chunks| && chunks[k].arena.Some? ==> chunks[k].arena.value < |arenas|
  }

  /** A stream as the dispatcher sees it: sizes and upload arenas. */
  function Sized(chunks: seq<Chunk>, arenas: seq<nat>): (r: seq<D.Chunk>)
    requires ArenasPresent(chunks, arenas)
    ensures |r| == |chunks|
  {
    seq(|chunks|, (k: int) requires 0 <= k < |chunks| =>
      D.Chunk(|chunks[k].bytes|, if chunks[k].arena.Some? then Some(arenas[chunks[k].arena.value]) else None))
  }

  /** The dispatcher accounts exactly the bytes of the packets. */
  lemma {:induction false} SizedBytes(chunks: seq<Chunk>, arenas: seq<nat>)
    requires ArenasPresent(chunks, arenas)
    ensures D.Sizes(Sized(chunks, arenas)) == |Stream(chunks)|
  {
    if chunks != [] {
      var n := |chunks| - 1;
      SizedBytes(chunks[..n], arenas);
      assert Sized(chunks, arenas)[..n] == Sized(chunks[..n], arenas);
    }
  }

  /** `Packets::new`, whose assertion demands a positive limit. */
  method NewPackets(limit: nat) returns (result: Called<Packets>)
    ensures result.Stopped? <==> limit == 0
    ensures result.Returned? ==>
      fresh(result.value) && result.value.Valid() && result.value.Appended() == [] && result.value.limit == limit
  {
    if limit == 0 {
      return Stopped;
    }
    var packets := new Packets(limit);
    return Returned(packets);
  }

  /** The per-call state of one submission. */
  class SubmitMode {
    const tracked: bool
    var packets: Packets
    var arenas: seq<nat>
    var receipt: Option<nat>
    var busy: bool
    var tooLarge: bool

    constructor (tracked: bool, packets: Packets)
      ensures this.tracked == tracked && this.packets == packets && arenas == []
      ensures receipt == None && !busy && !tooLarge
    {
      this.tracked, this.packets, arenas := tracked, packets, [];
      receipt, busy, tooLarge := None, false, false;
    }

    /**
     `flush` as it is written: it moves the packets out and leaves packets of
     limit zero, which no constructor call returns. A tracked call stops there,
     with nothing offered to the scheduler; a synchronous one has nothing to do.
     */
    method Flush(scheduler: D.State, ghost actions: seq<D.Action>)
      returns (result: Called<Result<(), HandleError>>, after: D.State)
      requires packets.Valid() && DR.Runs(D.Initial(), actions, scheduler)
      modifies this, packets
      ensures tracked ==> result.Stopped?
      ensures !tracked ==> result == Returned(Ok(()))
      ensures after == scheduler && receipt == old(receipt) && busy == old(busy) && tooLarge == old(tooLarge)
    {
      result, after := FlushLeaving(0, scheduler, actions);
    }

    /**
     `flush` when packets of limit `left` are left in place, on a scheduler in
     any reachable state. With a positive limit the finished chunks are offered
     once, whole. They are admitted, and a receipt appears, exactly when they
     are at most 512 MiB, nothing failed and there is room beside the streams
     not yet resolved; too large, failed and busy are told apart in that order.
     A chunk whose arena the call does not hold offers nothing.
     */
    method FlushLeaving(left: nat, scheduler: D.State, ghost actions: seq<D.Action>)
      returns (result: Called<Result<(), HandleError>>, after: D.State)
      requires packets.Valid() && DR.Runs(D.Initial(), actions, scheduler)
      modifies this, packets
      ensures !tracked ==> result == Returned(Ok(()))
      ensures result.Stopped? <==> tracked && left == 0
      ensures !tracked || left == 0 || !ArenasPresent(old(packets.Finished()), arenas) ==>
        after == scheduler && receipt == old(receipt) && busy == old(busy) && tooLarge == old(tooLarge)
      ensures tracked && left > 0 && !ArenasPresent(old(packets.Finished()), arenas) ==>
        result == Returned(Err(InvalidParameter))
      ensures |scheduler.outcomes| == |scheduler.streams|
      ensures tracked && left > 0 && ArenasPresent(old(packets.Finished()), arenas) ==>
        var bytes := |Join(old(packets.Appended()))|;
        var admitted := bytes <= 536870912 && !scheduler.failure && DL.Room(scheduler, bytes);
        && after == D.EnqueueStep(scheduler, Sized(old(packets.Finished()), arenas))
        && (if admitted then
              after.streams == scheduler.streams + [D.Stream(bytes, Sized(old(packets.Finished()), arenas))]
            else after == scheduler)
        && (result == Returned(Ok(())) <==> admitted)
        && receipt == (if admitted then Some(|scheduler.streams|) else old(receipt))
        && tooLarge == (old(tooLarge) || bytes > 536870912)
        && (result == Returned(Err(SystemError)) <==> bytes <= 536870912 && scheduler.failure)
        && busy == (old(busy) || (bytes <= 536870912 && !scheduler.failure && !DL.Room(scheduler, bytes)))
      ensures arenas == old(arenas)
      ensures tracked && left > 0 ==> fresh(packets) && packets.Valid() && packets.Appended() == []
    {
      after := scheduler;
      DL.AdmitsExactly(actions, scheduler, 0);
      if !tracked {
        return Returned(Ok(())), after;
      }
      var moved := TakeChunks(left);
      if moved.Stopped? {
        return Stopped, after;
      }
      var staged := moved.value;
      var offered := Named(staged);
      if offered.None? {
        return Returned(Err(InvalidParameter)), after;
      }
      SizedBytes(staged, arenas);
      DL.AdmitsExactly(actions, scheduler, |Stream(staged)|);
      var ok;
      ok, after := Offer(offered.value, scheduler);
      return Returned(ok), after;
    }

    /** Move the packets out, leaving empty ones of limit `left`, and finish them. */
    method TakeChunks(left: nat) returns (staged: Called<seq<Chunk>>)
      requires packets.Valid()
      modifies this`packets, packets
      ensures staged.Stopped? <==> left == 0
      ensures staged.Returned? ==>
        && staged.value == old(packets.Finished()) && Stream(staged.value) == Join(old(packets.Appended()))
        && fresh(packets) && packets.Valid() && packets.Appended() == []
    {
      var empty := NewPackets(left);
      if empty.Stopped? {
        return Stopped;
      }
      var taken := packets;
      packets := empty.value;
      var chunks := taken.Finish();
      return Returned(chunks);
    }

    /** One offer to the scheduler, and what the call remembers of the answer. */
    method Offer(chunks: seq<D.Chunk>, scheduler: D.State) returns (result: Result<(), HandleError>, after: D.State)
      modifies this`receipt, this`busy, this`tooLarge
      ensures after == D.EnqueueStep(scheduler, chunks)
      ensures var admission := D.Admit(scheduler, D.Sizes(chunks));
        && (result == Ok(()) <==> admission.Accepted?) && (admission.Refused? <==> result == Err(SystemError))
        && receipt == (if admission.Accepted? then Some(|scheduler.streams|) else old(receipt))
        && busy == (old(busy) || admission.Busy?) && tooLarge == (old(tooLarge) || admission.TooLarge?)
    {
      after := D.EnqueueStep(scheduler, chunks);
      match D.Admit(scheduler, D.Sizes(chunks)) {
        case Accepted =>
          receipt := Some(|scheduler.streams|);
          return Ok(()), after;
        case Busy =>
          busy := true;
          return Err(OutOfResources), after;
        case TooLarge =>
          tooLarge := true;
          return Err(OutOfResources), after;
        case Refused =>
          return Err(SystemError), after;
      }
    }

    /** Resolve the arena of every chunk. */
    method Named(staged: seq<Chunk>) returns (result: Option<seq<D.Chunk>>)
      ensures result.Some? <==> ArenasPresent(staged, arenas)
      ensures result.Some? ==> result.value == Sized(staged, arenas)
    {
      var chunks: seq<D.Chunk> := [];
      for k := 0 to |staged|
        invariant ArenasPresent(staged[..k], arenas) && chunks == Sized(staged[..k], arenas)
      {
        var arena := None;
        if staged[k].arena.Some? {
          if staged[k].arena.value >= |arenas| {
            return None;
          }
          arena := Some(arenas[staged[k].arena.value]);
        }
        chunks := chunks + [D.Chunk(|staged[k].bytes|, arena)];
      }
      assert staged[..|staged|] == staged;
      return Some(chunks);
    }

    /**
     The caller of a tracked submission learns of every admitted stream, and of
     no other: a receipt comes back exactly when one exists, with the error if
     work failed after admission. A synchronous call has no receipt to give.
     */
    method Finish(result: Result<(), nat>) returns (outcome: CallOutcome)
      ensures !tracked ==> outcome == Rejected(CompletionUnavailable)
      ensures (outcome.Submitted? || outcome.Failed?) <==> tracked && receipt.Some?
      ensures outcome.Submitted? ==> result.Ok? && Some(outcome.receipt) == receipt
      ensures outcome.Failed? ==>
        result.Err? && outcome.error == Work(result.error) && Some(outcome.completion) == receipt
      ensures outcome.Busy? <==> tracked && receipt.None? && busy
      ensures tracked && outcome.Rejected? ==>
        outcome.reason
        == if tooLarge then SubmissionTooLarge else if result.Err? then Work(result.error) else CompletionUnavailable
    {
      if !tracked {
        return Rejected(CompletionUnavailable);
      }
      if receipt.Some? {
        return if result.Ok? then Submitted(receipt.value) else Failed(Work(result.error), receipt.value);
      }
      if busy {
        return Busy;
      }
      if tooLarge {
        return Rejected(SubmissionTooLarge);
      }
      return Rejected(if result.Err? then Work(result.error) else CompletionUnavailable);
    }
  }

  /** A call that holds all four arenas never names a missing one. */
  lemma ArenasSuffice(chunks: seq<Chunk>, arenas: seq<nat>)
    requires forall k :: 0 <= k < |chunks| && chunks[k].arena.Some? ==> chunks[k].arena.value == k % ARENAS
    requires |arenas| >= ARENAS
    ensures ArenasPresent(chunks, arenas)
  {
  }

  /** An admitted offer is the last of the accepted streams, and its receipt names it. */
  lemma ReceiptNamesStream(scheduler: D.State, chunks: seq<Chunk>, arenas: seq<nat>)
    requires ArenasPresent(chunks, arenas)
    ensures var after := D.EnqueueStep(scheduler, Sized(chunks, arenas));
      if D.Admit(scheduler, |Stream(chunks)|).Accepted? then
        && after.streams == scheduler.streams + [D.Stream(|Stream(chunks)|, Sized(chunks, arenas))]
        && after.streams[|scheduler.streams|].bytes == |Stream(chunks)|
        && after.pending == scheduler.pending + [|scheduler.streams|]
      else
        after == scheduler
  {
    SizedBytes(chunks, arenas);
  }
}
