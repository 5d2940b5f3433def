/** Chunked streams over a data channel: how a body is split into packets
    (src/rtc/datachannel/rtc_channel.cpp) and put together again
    (src/rtc/datachannel/ipc_channel.cpp). */
module StreamTransport {
  import opened Common

  const STREAM_CHUNK_SIZE: nat := 64 * 1024

  datatype Payload =
    | Header(totalLength: nat)
    | Chunk(offset: nat, data: seq<Byte>)
    | Trailer(reason: string)

  datatype Packet = Packet(streamId: string, payload: Payload)

  // ----- The sending side -----

  /** What one SendStream call transmits: the declared length, and the pieces of the body. */
  datatype Plan = Plan(declared: nat, pieces: seq<seq<Byte>>) {
    /** The body a receiver is meant to get, if the pieces add up to the declared length. */
    predicate Complete() { |Concat(pieces)| == declared }

    /** The reason carried by the trailer; the empty one means success. */
    function Reason(): string { if Complete() then "" else "read error" }
  }

  function Concat(pieces: seq<seq<Byte>>): seq<Byte> {
    if pieces == [] then [] else Concat(pieces[..|pieces| - 1]) + pieces[|pieces| - 1]
  }

  /** The chunk payloads of a body read in these pieces; offsets are running totals. */
  function Chunks(pieces: seq<seq<Byte>>): (r: seq<Payload>)
    ensures |r| == |pieces|
  {
    if pieces == [] then [] else
      var front := pieces[..|pieces| - 1];
      Chunks(front) + [Chunk(|Concat(front)|, pieces[|pieces| - 1])]
  }

  function Tag(id: string, payloads: seq<Payload>): seq<Packet> {
    seq(|payloads|, i requires 0 <= i < |payloads| => Packet(id, payloads[i]))
  }

  lemma TagAppend(id: string, payloads: seq<Payload>, payload: Payload)
    ensures Tag(id, payloads + [payload]) == Tag(id, payloads) + [Packet(id, payload)]
  {}

  function Payloads(plan: Plan): seq<Payload> {
    [Header(plan.declared)] + Chunks(plan.pieces) + [Trailer(plan.Reason())]
  }

  /** Where the last piece of the first `end` bytes starts. */
  function LastStart(end: nat): (start: nat)
    requires end > 0
    ensures start < end <= start + STREAM_CHUNK_SIZE
    ensures forall offset: nat :: offset % STREAM_CHUNK_SIZE == 0 && offset < end <= offset + STREAM_CHUNK_SIZE
                             ==> start == offset
  {
    (end - 1) / STREAM_CHUNK_SIZE * STREAM_CHUNK_SIZE
  }

  /** The pieces in which the first `end` bytes of an in-memory body are sent. */
  function Pieces(body: seq<Byte>, end: nat): seq<seq<Byte>>
    requires end <= |body|
  {
    if end == 0 then [] else Pieces(body, LastStart(end)) + [body[LastStart(end)..end]]
  }

  /** Splitting an in-memory body loses nothing. */
  lemma {:induction false} PiecesConcat(body: seq<Byte>, end: nat)
    requires end <= |body|
    ensures Concat(Pieces(body, end)) == body[..end]
    ensures forall piece <- Pieces(body, end) :: 0 < |piece| <= STREAM_CHUNK_SIZE
  {
    if end > 0 {
      PiecesConcat(body, LastStart(end));
      var all := Pieces(body, end);
      assert all[..|all| - 1] == Pieces(body, LastStart(end));
    }
  }

  /** The header and the chunks of the first `end` bytes. */
  function SentUpTo(body: seq<Byte>, end: nat): seq<Payload>
    requires end <= |body|
  {
    [Header(|body|)] + Chunks(Pieces(body, end))
  }

  /** One step of the splitting loop. */
  lemma NextPiece(body: seq<Byte>, offset: nat, end: nat)
    requires offset < end <= |body| && end <= offset + STREAM_CHUNK_SIZE
    requires offset % STREAM_CHUNK_SIZE == 0
    ensures SentUpTo(body, end) == SentUpTo(body, offset) + [Chunk(offset, body[offset..end])]
  {
    PiecesConcat(body, offset);
    var all := Pieces(body, end);
    assert all == Pieces(body, offset) + [body[offset..end]];
    assert all[..|all| - 1] == Pieces(body, offset);
  }

  function MemoryPlan(body: seq<Byte>): Plan { Plan(|body|, Pieces(body, |body|)) }

  /** Where the piece at this offset ends. */
  function NextOffset(offset: nat, size: nat): (next: nat)
    requires offset < size && offset % STREAM_CHUNK_SIZE == 0
    ensures offset < next <= size && next <= offset + STREAM_CHUNK_SIZE
    ensures next < size ==> next % STREAM_CHUNK_SIZE == 0
  {
    offset + if STREAM_CHUNK_SIZE <= size - offset then STREAM_CHUNK_SIZE else size - offset
  }

  /** A body in memory always makes a complete plan for itself. */
  lemma MemoryPlanIsComplete(body: seq<Byte>)
    ensures MemoryPlan(body).Complete() && Concat(MemoryPlan(body).pieces) == body
  {
    PiecesConcat(body, |body|);
  }

  /** A channel's outbound side: callers queue packets, the send thread forwards them in order. */
  class RtcChannel {
    var sendQueue: seq<Packet>
    ghost var wire: seq<Packet>

    constructor ()
      ensures sendQueue == [] && wire == []
    {
      sendQueue, wire := [], [];
    }

    method Send(packet: Packet)
      modifies this
      ensures sendQueue == old(sendQueue) + [packet] && wire == old(wire)
    {
      sendQueue := sendQueue + [packet];
    }

    /** SendStream for a body in memory. */
    method SendBody(streamId: string, body: seq<Byte>)
      modifies this
      ensures sendQueue == old(sendQueue) + Tag(streamId, Payloads(MemoryPlan(body)))
      ensures sendQueue[|old(sendQueue)|] == Packet(streamId, Header(|body|))
      ensures sendQueue[|sendQueue| - 1] == Packet(streamId, Trailer(""))
      ensures wire == old(wire)
    {
      Send(Packet(streamId, Header(|body|)));
      var offset := 0;
      assert SentUpTo(body, 0) == [Header(|body|)];
      while offset < |body|
        invariant offset <= |body|
        invariant offset < |body| ==> offset % STREAM_CHUNK_SIZE == 0
        invariant sendQueue == old(sendQueue) + Tag(streamId, SentUpTo(body, offset))
        invariant wire == old(wire)
      {
        offset := SendNextPiece(streamId, body, offset, old(sendQueue));
      }
      MemoryPlanIsComplete(body);
      TagAppend(streamId, SentUpTo(body, offset), Trailer(""));
      Send(Packet(streamId, Trailer("")));
    }

    /** The body of the splitting loop. */
    method SendNextPiece(streamId: string, body: seq<Byte>, offset: nat, ghost before: seq<Packet>)
      returns (next: nat)
      requires offset < |body| && offset % STREAM_CHUNK_SIZE == 0
      requires sendQueue == before + Tag(streamId, SentUpTo(body, offset))
      modifies this
      ensures offset < next <= |body|
      ensures next < |body| ==> next % STREAM_CHUNK_SIZE == 0
      ensures wire == old(wire)
      ensures sendQueue == before + Tag(streamId, SentUpTo(body, next))
    {
      next := NextOffset(offset, |body|);
      NextPiece(body, offset, next);
      TagAppend(streamId, SentUpTo(body, offset), Chunk(offset, body[offset..next]));
      Send(Packet(streamId, Chunk(offset, body[offset..next])));
    }

    /** SendStream for a file: `declared` is the length found by seeking, `pieces` what the
        successive reads give. */
    method SendFile(streamId: string, declared: nat, pieces: seq<seq<Byte>>)
      modifies this
      ensures sendQueue == old(sendQueue) + Tag(streamId, Payloads(Plan(declared, pieces)))
      ensures sendQueue[|old(sendQueue)|] == Packet(streamId, Header(declared))
      ensures sendQueue[|sendQueue| - 1]
           == Packet(streamId, Trailer(if |Concat(pieces)| == declared then "" else "read error"))
      ensures wire == old(wire)
    {
      Send(Packet(streamId, Header(declared)));
      var offset := 0;
      var i := 0;
      while i < |pieces|
        invariant 0 <= i <= |pieces|
        invariant offset == |Concat(pieces[..i])|
        invariant sendQueue == old(sendQueue) + Tag(streamId, [Header(declared)] + Chunks(pieces[..i]))
        invariant wire == old(wire)
      {
        assert pieces[..i + 1][..i] == pieces[..i];
        Send(Packet(streamId, Chunk(offset, pieces[i])));
        offset := offset + |pieces[i]|;
        i := i + 1;
      }
      assert pieces[..i] == pieces;
      if offset != declared {
        Send(Packet(streamId, Trailer("read error")));
      } else {
        Send(Packet(streamId, Trailer("")));
      }
    }

    /** One round of the send thread while the channel is open and not congested. */
    method SendLoopRound()
      modifies this
      ensures wire + sendQueue == old(wire) + old(sendQueue)
      ensures |sendQueue| == if old(sendQueue) == [] then 0 else |old(sendQueue)| - 1
    {
      if sendQueue != [] {
        var front := sendQueue[0];
        sendQueue := sendQueue[1..];
        wire := wire + [front];
      }
    }
  }

  // ----- The receiving side -----

  /** A payload too large for one message, while it is put together. */
  datatype Assembly = Assembly(buffer: seq<Byte>, received: nat)

  datatype Arrival = Arrival(remoteId: string, packet: Packet)
  datatype Delivery = Delivery(remoteId: string, body: seq<Byte>)
  datatype Receiver = Receiver(assemblies: map<string, Assembly>, delivered: seq<Delivery>)

  /** What one payload does to the assembly of its own stream. */
  function Assemble(assembly: Option<Assembly>, payload: Payload): Option<Assembly> {
    match payload
    case Header(total) => Some(Assembly(seq(total, _ => 0), 0))
    case Chunk(offset, data) =>
      if assembly.None? || offset + |data| > |assembly.value.buffer| then None
      else Some(Assembly(Overwrite(assembly.value.buffer, offset, data), assembly.value.received + |data|))
    case Trailer(_) => None
  }

  /** The body a payload hands on; the empty one stands for nothing. */
  function Finished(assembly: Option<Assembly>, payload: Payload): seq<Byte> {
    if payload.Trailer? && payload.reason == "" && assembly.Some?
       && assembly.value.received == |assembly.value.buffer|
    then assembly.value.buffer else []
  }

  function Lookup(assemblies: map<string, Assembly>, id: string): Option<Assembly> {
    if id in assemblies then Some(assemblies[id]) else None
  }

  function Store(assemblies: map<string, Assembly>, id: string, assembly: Option<Assembly>)
    : map<string, Assembly>
  {
    if assembly.Some? then assemblies[id := assembly.value] else assemblies - {id}
  }

  function Deliver(remoteId: string, body: seq<Byte>): seq<Delivery> {
    if body == [] then [] else [Delivery(remoteId, body)]
  }

  function Receive(r: Receiver, a: Arrival): Receiver {
    var before := Lookup(r.assemblies, a.packet.streamId);
    Receiver(Store(r.assemblies, a.packet.streamId, Assemble(before, a.packet.payload)),
             r.delivered + Deliver(a.remoteId, Finished(before, a.packet.payload)))
  }

  function ReceiveAll(trace: seq<Arrival>): Receiver {
    if trace == [] then Receiver(map[], [])
    else Receive(ReceiveAll(trace[..|trace| - 1]), trace[|trace| - 1])
  }

  /** Silence, in milliseconds, after which a lossy sender is taken to have restarted. */
  const SEQUENCE_RESET_GAP: int := 1000

  datatype LastSequence = LastSequence(sequence: nat, receivedAt: int)
  datatype Sequenced = Sequenced(remoteId: string, endpoint: string, sequence: nat, now: int)

  function LastOf(last: map<(string, string), LastSequence>, p: Sequenced): LastSequence {
    if (p.remoteId, p.endpoint) in last then last[(p.remoteId, p.endpoint)] else LastSequence(0, 0)
  }

  ghost predicate SameLast(a: map<(string, string), LastSequence>, b: map<(string, string), LastSequence>) {
    forall p :: LastOf(a, p) == LastOf(b, p)
  }

  predicate Accepted(last: map<(string, string), LastSequence>, p: Sequenced) {
    p.sequence == 0 || p.sequence > LastOf(last, p).sequence
    || p.now - LastOf(last, p).receivedAt >= SEQUENCE_RESET_GAP
  }

  function Remember(last: map<(string, string), LastSequence>, p: Sequenced)
    : map<(string, string), LastSequence>
  {
    if p.sequence == 0 || !Accepted(last, p) then last
    else last[(p.remoteId, p.endpoint) := LastSequence(p.sequence, p.now)]
  }

  function RememberAll(trace: seq<Sequenced>): map<(string, string), LastSequence> {
    if trace == [] then map[]
    else Remember(RememberAll(trace[..|trace| - 1]), trace[|trace| - 1])
  }

  /** The receiving side of an IPC channel. */
  class IpcChannel {
    const lossy: bool
    var assemblies: map<string, Assembly>
    var delivered: seq<Delivery>
    var lastSequence: map<(string, string), LastSequence>

    ghost function State(): Receiver
      reads this
    {
      Receiver(assemblies, delivered)
    }

    constructor (lossy: bool)
      ensures State() == ReceiveAll([]) && lastSequence == RememberAll([]) && this.lossy == lossy
    {
      this.lossy := lossy;
      assemblies, delivered, lastSequence := map[], [], map[];
    }

    method AcceptSequence(remoteId: string, endpoint: string, sequence: nat, now: int)
      returns (ok: bool)
      modifies this`lastSequence
      ensures !lossy ==> ok && lastSequence == old(lastSequence)
      ensures lossy ==> ok == Accepted(old(lastSequence), Sequenced(remoteId, endpoint, sequence, now))
      ensures lossy ==> SameLast(lastSequence,
                                 Remember(old(lastSequence), Sequenced(remoteId, endpoint, sequence, now)))
    {
      if !lossy || sequence == 0 {
        return true;
      }
      var key := (remoteId, endpoint);
      if key !in lastSequence {
        lastSequence := lastSequence[key := LastSequence(0, 0)];
      }
      var last := lastSequence[key];
      if sequence <= last.sequence && now - last.receivedAt < SEQUENCE_RESET_GAP {
        return false;
      }
      lastSequence := lastSequence[key := LastSequence(sequence, now)];
      return true;
    }

    method OnStreamHeader(streamId: string, totalLength: nat, ghost remoteId: string)
      modifies this`assemblies, this`delivered
      ensures State() == Receive(old(State()), Arrival(remoteId, Packet(streamId, Header(totalLength))))
    {
      assemblies := assemblies[streamId := Assembly(seq(totalLength, _ => 0), 0)];
    }

    method OnStreamChunk(streamId: string, offset: nat, data: seq<Byte>, ghost remoteId: string)
      modifies this`assemblies, this`delivered
      ensures State() == Receive(old(State()), Arrival(remoteId, Packet(streamId, Chunk(offset, data))))
    {
      if streamId !in assemblies {
        return;
      }
      var it := assemblies[streamId];
      if offset + |data| > |it.buffer| {
        assemblies := assemblies - {streamId};
        return;
      }
      it := it.(buffer := it.buffer[..offset] + data + it.buffer[offset + |data|..]);
      it := it.(received := it.received + |data|);
      assemblies := assemblies[streamId := it];
    }

    method OnStreamTrailer(streamId: string, reason: string, remoteId: string)
      modifies this`assemblies, this`delivered
      ensures State() == Receive(old(State()), Arrival(remoteId, Packet(streamId, Trailer(reason))))
    {
      if streamId !in assemblies {
        return;
      }
      var it := assemblies[streamId];
      var body: seq<Byte> := [];
      if reason == "" && it.received == |it.buffer| {
        body := it.buffer;
      }
      assemblies := assemblies - {streamId};
      if body == [] {
        return;
      }
      delivered := delivered + [Delivery(remoteId, body)];
    }
  }

  // ----- One stream on its own -----

  function Fold(payloads: seq<Payload>): Option<Assembly> {
    if payloads == [] then None
    else Assemble(Fold(payloads[..|payloads| - 1]), payloads[|payloads| - 1])
  }

  function Size(payload: Payload): nat {
    if payload.Chunk? then |payload.data| else 0
  }

  function TotalSize(payloads: seq<Payload>): nat {
    if payloads == [] then 0 else TotalSize(payloads[..|payloads| - 1]) + Size(payloads[|payloads| - 1])
  }

  lemma {:induction false} TotalSizeAppend(a: seq<Payload>, b: seq<Payload>)
    ensures TotalSize(a + b) == TotalSize(a) + TotalSize(b)
  {
    if b == [] {
      assert a + b == a;
    } else {
      var front := b[..|b| - 1];
      assert (a + b)[..|a + b| - 1] == a + front;
      TotalSizeAppend(a, front);
    }
  }

  /** The total size does not depend on the order. */
  lemma {:induction false} TotalSizePermuted(a: seq<Payload>, b: seq<Payload>)
    requires multiset(a) == multiset(b)
    ensures TotalSize(a) == TotalSize(b)
    decreases |a|
  {
    assert |a| == |multiset(a)| == |multiset(b)| == |b|;
    if a != [] {
      var last := a[|a| - 1];
      var front := a[..|a| - 1];
      assert a == front + [last];
      assert last in multiset(b);
      var j :| 0 <= j < |b| && b[j] == last;
      assert b == b[..j] + [last] + b[j + 1..];
      assert multiset(front) == multiset(a) - multiset{last};
      assert multiset(b[..j] + b[j + 1..]) == multiset(b) - multiset{last};
      TotalSizePermuted(front, b[..j] + b[j + 1..]);
      TotalSizeAppend(b[..j], b[j + 1..]);
      TotalSizeAppend(b[..j] + [last], b[j + 1..]);
      TotalSizeAppend(b[..j], [last]);
      assert [last][..0] == [];
    }
  }

  /** `payload` is a chunk that carries the bytes of `body` at its offset. */
  predicate PartOf(payload: Payload, body: seq<Byte>) {
    payload.Chunk? && payload.offset + |payload.data| <= |body|
    && body[payload.offset..payload.offset + |payload.data|] == payload.data
  }

  /** Position `p` of the body lies in this chunk. */
  predicate Covers(payload: Payload, p: nat) {
    payload.Chunk? && payload.offset <= p < payload.offset + |payload.data|
  }

  lemma PartOfExtended(c: Payload, body: seq<Byte>, more: seq<Byte>)
    requires PartOf(c, body)
    ensures PartOf(c, body + more)
  {
    assert (body + more)[c.offset..c.offset + |c.data|] == body[c.offset..c.offset + |c.data|];
  }

  lemma {:induction false} ChunksArePartOfBody(pieces: seq<seq<Byte>>)
    ensures forall c <- Chunks(pieces) :: PartOf(c, Concat(pieces))
  {
    if pieces == [] {
      assert Chunks(pieces) == [];
    } else {
      var front, last := pieces[..|pieces| - 1], pieces[|pieces| - 1];
      var body := Concat(front);
      ChunksArePartOfBody(front);
      assert Chunks(pieces) == Chunks(front) + [Chunk(|body|, last)];
      forall c | c in Chunks(pieces) ensures PartOf(c, body + last) {
        if c in Chunks(front) {
          PartOfExtended(c, body, last);
        } else {
          assert c == Chunk(|body|, last) && (body + last)[|body|..] == last;
        }
      }
    }
  }

  lemma {:induction false} ChunksSize(pieces: seq<seq<Byte>>)
    ensures TotalSize(Chunks(pieces)) == |Concat(pieces)|
  {
    if pieces == [] {
      assert Chunks(pieces) == [];
    } else {
      var front := pieces[..|pieces| - 1];
      ChunksSize(front);
      assert Chunks(pieces)[..|pieces| - 1] == Chunks(front);
    }
  }

  lemma {:induction false} ChunksCoverBody(pieces: seq<seq<Byte>>, p: nat) returns (k: nat)
    requires p < |Concat(pieces)|
    ensures k < |pieces| && Covers(Chunks(pieces)[k], p)
  {
    var front := pieces[..|pieces| - 1];
    if p < |Concat(front)| {
      k := ChunksCoverBody(front, p);
    } else {
      k := |pieces| - 1;
    }
  }

  /** However the chunks are ordered, the part received so far agrees with the body. */
  lemma {:induction false} PartialAssembly(body: seq<Byte>, chunks: seq<Payload>)
    requires forall c <- chunks :: PartOf(c, body)
    ensures Fold([Header(|body|)] + chunks).Some?
    ensures var a := Fold([Header(|body|)] + chunks).value;
      && |a.buffer| == |body| && a.received == TotalSize(chunks)
      && forall p, i :: 0 <= p < |body| && 0 <= i < |chunks| && Covers(chunks[i], p)
           ==> a.buffer[p] == body[p]
  {
    var all := [Header(|body|)] + chunks;
    if chunks == [] {
      assert all[..0] == [] && Fold([]) == None;
      assert Fold(all) == Assemble(None, Header(|body|));
    } else {
      var front, last := chunks[..|chunks| - 1], chunks[|chunks| - 1];
      PartialAssembly(body, front);
      assert all[..|all| - 1] == [Header(|body|)] + front;
      assert PartOf(last, body);
      var a := Fold([Header(|body|)] + front).value;
      var b := Fold(all).value;
      forall p, i | 0 <= p < |body| && 0 <= i < |chunks| && Covers(chunks[i], p)
        ensures b.buffer[p] == body[p]
      {
        if Covers(last, p) {
          assert body[last.offset..last.offset + |last.data|][p - last.offset] == body[p];
        } else {
          assert chunks[i] == front[i];
        }
      }
    }
  }

  /** The payloads of a stream as they may arrive: the header first, the trailer last, and the
      chunks in between in any order. */
  predicate IsTransmission(payloads: seq<Payload>, plan: Plan) {
    && |payloads| == |plan.pieces| + 2
    && payloads[0] == Header(plan.declared)
    && multiset(payloads[1..|payloads| - 1]) == multiset(Chunks(plan.pieces))
    && payloads[|payloads| - 1] == Trailer(plan.Reason())
  }

  /** What is sent is a transmission, and any reordering of the chunks stays one. */
  lemma SentIsTransmission(plan: Plan)
    ensures IsTransmission(Payloads(plan), plan)
  {
    var all := Payloads(plan);
    assert all[1..|all| - 1] == Chunks(plan.pieces);
  }

  /** Chunks in any order rebuild a complete body exactly. */
  lemma ReorderedChunksRebuildBody(chunks: seq<Payload>, plan: Plan)
    requires plan.Complete()
    requires multiset(chunks) == multiset(Chunks(plan.pieces))
    ensures Fold([Header(plan.declared)] + chunks) == Some(Assembly(Concat(plan.pieces), plan.declared))
  {
    var body := Concat(plan.pieces);
    ChunksArePartOfBody(plan.pieces);
    ChunksSize(plan.pieces);
    forall c | c in chunks ensures PartOf(c, body) {
      assert c in multiset(chunks);
    }
    PartialAssembly(body, chunks);
    TotalSizePermuted(chunks, Chunks(plan.pieces));
    var a := Fold([Header(plan.declared)] + chunks).value;
    forall p | 0 <= p < |body| ensures a.buffer[p] == body[p] {
      var k := ChunksCoverBody(plan.pieces, p);
      var c := Chunks(plan.pieces)[k];
      assert c in multiset(chunks);
      var i :| 0 <= i < |chunks| && chunks[i] == c;
    }
    assert a.buffer == body;
  }

  lemma InnerPayloads(payloads: seq<Payload>, plan: Plan, k: nat)
    requires IsTransmission(payloads, plan) && k < |payloads| - 1
    ensures !payloads[k].Trailer?
  {
    if 0 < k {
      var inner := payloads[1..|payloads| - 1];
      assert payloads[k] == inner[k - 1];
      assert payloads[k] in multiset(inner);
      assert payloads[k] in Chunks(plan.pieces);
      ChunksArePartOfBody(plan.pieces);
    }
  }

  /** At its trailer, and only there, a transmission hands on its body, and only if the pieces
      read add up to the declared length. */
  lemma TransmissionResult(payloads: seq<Payload>, plan: Plan, k: nat)
    requires IsTransmission(payloads, plan) && k < |payloads|
    ensures payloads[k].Trailer? <==> k == |payloads| - 1
    ensures Finished(Fold(payloads[..k]), payloads[k])
         == if k == |payloads| - 1 && plan.Complete() then Concat(plan.pieces) else []
  {
    if k < |payloads| - 1 {
      InnerPayloads(payloads, plan, k);
    } else if plan.Complete() {
      var chunks := payloads[1..|payloads| - 1];
      assert payloads[..k] == [Header(plan.declared)] + chunks;
      ReorderedChunksRebuildBody(chunks, plan);
    }
  }

  // ----- Whatever arrives -----

  /** The byte of the last of these chunks that covers position `p`, and zero if none does. */
  function LatestByte(chunks: seq<Payload>, p: nat): Byte {
    if chunks == [] then 0 else
      var last := chunks[|chunks| - 1];
      if Covers(last, p) then last.data[p - last.offset] else LatestByte(chunks[..|chunks| - 1], p)
  }

  predicate Fits(c: Payload, total: nat) { c.Chunk? && c.offset + |c.data| <= total }

  /** Nothing but chunks that fit the header at `h`, and add up to its length, has come since. */
  predicate WholeSince(payloads: seq<Payload>, h: nat) {
    && h < |payloads| && payloads[h].Header?
    && (forall i :: h < i < |payloads| ==> Fits(payloads[i], payloads[h].totalLength))
    && TotalSize(payloads[h + 1..]) == payloads[h].totalLength
  }

  /** What the chunks since the header at `h` make. */
  ghost predicate IsBodySince(body: seq<Byte>, payloads: seq<Payload>, h: nat)
    requires h < |payloads| && payloads[h].Header?
  {
    && |body| == payloads[h].totalLength
    && forall p :: 0 <= p < |body| ==> body[p] == LatestByte(payloads[h + 1..], p)
  }

  /** `body` is what a payload hands on after those before it on its stream: at a trailer without a
      reason the body that is whole since its header, and nothing in any other case. */
  ghost predicate IsHandedOn(before: seq<Payload>, payload: Payload, body: seq<Byte>) {
    if payload == Trailer("") && exists h: nat :: WholeSince(before, h)
    then exists h: nat :: WholeSince(before, h) && IsBodySince(body, before, h)
    else body == []
  }

  lemma LatestAfter(chunks: seq<Payload>, c: Payload, p: nat)
    ensures LatestByte(chunks + [c], p) == if Covers(c, p) then c.data[p - c.offset] else LatestByte(chunks, p)
  {
    assert (chunks + [c])[..|chunks|] == chunks;
  }

  lemma {:induction false} AssembledSince(payloads: seq<Payload>, h: nat)
    requires h < |payloads| && payloads[h].Header?
    requires forall i :: h < i < |payloads| ==> Fits(payloads[i], payloads[h].totalLength)
    ensures var a := Fold(payloads);
      a.Some? && IsBodySince(a.value.buffer, payloads, h) && a.value.received == TotalSize(payloads[h + 1..])
  {
    if h == |payloads| - 1 {
      assert payloads[h + 1..] == [];
    } else {
      var front, last := payloads[..|payloads| - 1], payloads[|payloads| - 1];
      var chunks := front[h + 1..];
      AssembledSince(front, h);
      assert payloads[h + 1..] == chunks + [last];
      OneMoreChunk(Fold(front).value, chunks, last);
    }
  }

  /** One more chunk that fits. */
  lemma OneMoreChunk(a: Assembly, chunks: seq<Payload>, c: Payload)
    requires Fits(c, |a.buffer|) && a.received == TotalSize(chunks)
    requires forall p :: 0 <= p < |a.buffer| ==> a.buffer[p] == LatestByte(chunks, p)
    ensures var b := Assemble(Some(a), c);
      && b.Some? && |b.value.buffer| == |a.buffer| && b.value.received == TotalSize(chunks + [c])
      && forall p :: 0 <= p < |a.buffer| ==> b.value.buffer[p] == LatestByte(chunks + [c], p)
  {
    assert (chunks + [c])[..|chunks|] == chunks;
    var body := Assemble(Some(a), c).value.buffer;
    forall p | 0 <= p < |body| ensures body[p] == LatestByte(chunks + [c], p) {
      LatestAfter(chunks, c, p);
    }
  }

  lemma {:induction false} NotAssembledSince(payloads: seq<Payload>, h: nat, i: nat)
    requires h < i < |payloads| && payloads[h].Header?
    requires forall k :: h < k < |payloads| ==> payloads[k].Chunk?
    requires forall k :: h < k < i ==> Fits(payloads[k], payloads[h].totalLength)
    requires !Fits(payloads[i], payloads[h].totalLength)
    ensures Fold(payloads).None?
  {
    var front := payloads[..|payloads| - 1];
    if i == |payloads| - 1 {
      AssembledSince(front, h);
    } else {
      NotAssembledSince(front, h, i);
    }
  }

  /** Where the header is whose chunks are the last that came, if it is there. */
  function LastHeader(payloads: seq<Payload>): (h: Option<nat>)
    ensures h.Some? ==> h.value < |payloads| && payloads[h.value].Header?
    ensures h.Some? ==> forall i :: h.value < i < |payloads| ==> payloads[i].Chunk?
    ensures h.None? ==> forall i :: 0 <= i < |payloads| && payloads[i].Header? ==>
      exists j :: i < j < |payloads| && !payloads[j].Chunk?
  {
    if payloads == [] then None else
      var n := |payloads| - 1;
      if payloads[n].Header? then Some(n)
      else if payloads[n].Trailer? then None
      else LastHeader(payloads[..n])
  }

  lemma {:induction false} NoHeaderNoAssembly(payloads: seq<Payload>)
    requires LastHeader(payloads).None?
    ensures Fold(payloads).None?
  {
    if payloads != [] && payloads[|payloads| - 1].Chunk? {
      NoHeaderNoAssembly(payloads[..|payloads| - 1]);
    }
  }

  lemma WholeIsLastHeader(payloads: seq<Payload>, h: nat)
    requires WholeSince(payloads, h)
    ensures LastHeader(payloads) == Some(h)
  {
    assert forall i :: h < i < |payloads| ==> payloads[i].Chunk?;
  }

  lemma FirstMisfit(payloads: seq<Payload>, h: nat) returns (i: nat)
    requires h < |payloads| && payloads[h].Header?
    requires exists k :: h < k < |payloads| && !Fits(payloads[k], payloads[h].totalLength)
    ensures h < i < |payloads| && !Fits(payloads[i], payloads[h].totalLength)
    ensures forall k :: h < k < i ==> Fits(payloads[k], payloads[h].totalLength)
  {
    i := h + 1;
    while Fits(payloads[i], payloads[h].totalLength)
      invariant h < i < |payloads|
      decreases |payloads| - i
      invariant forall k :: h < k < i ==> Fits(payloads[k], payloads[h].totalLength)
    {
      i := i + 1;
    }
  }

  lemma NothingWhole(before: seq<Payload>, payload: Payload)
    requires payload == Trailer("") && forall h: nat :: !WholeSince(before, h)
    ensures Finished(Fold(before), payload) == []
  {
    var last := LastHeader(before);
    if last.None? {
      NoHeaderNoAssembly(before);
    } else {
      var h := last.value;
      if forall i :: h < i < |before| ==> Fits(before[i], before[h].totalLength) {
        AssembledSince(before, h);
        assert !WholeSince(before, h);
      } else {
        var i := FirstMisfit(before, h);
        NotAssembledSince(before, h, i);
      }
    }
  }

  /** What a payload hands on is decided by what came before it on its stream. */
  lemma FinishedIsHandedOn(before: seq<Payload>, payload: Payload)
    ensures IsHandedOn(before, payload, Finished(Fold(before), payload))
  {
    if payload == Trailer("") {
      if h: nat :| WholeSince(before, h) {
        AssembledSince(before, h);
      } else {
        NothingWhole(before, payload);
      }
    }
  }

  // ----- Many streams at once -----

  /** The payloads of one stream, in arrival order. */
  function Project(trace: seq<Arrival>, id: string): seq<Payload> {
    if trace == [] then [] else
      var last := trace[|trace| - 1].packet;
      Project(trace[..|trace| - 1], id) + if last.streamId == id then [last.payload] else []
  }

  /** Streams do not disturb one another: the assembly of a stream is a matter of its own payloads. */
  lemma {:induction false} StreamsAreIndependent(trace: seq<Arrival>, id: string)
    ensures Lookup(ReceiveAll(trace).assemblies, id) == Fold(Project(trace, id))
  {
    if trace != [] {
      var front, last := trace[..|trace| - 1], trace[|trace| - 1].packet;
      StreamsAreIndependent(front, id);
      var payloads := Project(trace, id);
      if last.streamId == id {
        assert payloads == Project(front, id) + [last.payload];
        assert payloads[..|payloads| - 1] == Project(front, id);
      } else {
        assert payloads == Project(front, id);
      }
    }
  }

  lemma {:induction false} ProjectPrefix(trace: seq<Arrival>, k: nat, id: string)
    requires k <= |trace|
    ensures |Project(trace[..k], id)| <= |Project(trace, id)|
    ensures Project(trace, id)[..|Project(trace[..k], id)|] == Project(trace[..k], id)
    decreases |trace|
  {
    if k == |trace| {
      assert trace[..k] == trace;
    } else {
      var front := trace[..|trace| - 1];
      assert front[..k] == trace[..k];
      ProjectPrefix(front, k, id);
    }
  }

  /** Every packet belongs to one of the streams, and each stream arrives as a transmission of
      its plan. Nothing is said about how the streams interleave. */
  predicate WellFormed(trace: seq<Arrival>, plans: map<string, Plan>) {
    && (forall a <- trace :: a.packet.streamId in plans)
    && forall id <- plans :: IsTransmission(Project(trace, id), plans[id])
  }

  /** The bodies of the complete streams, in the order of their trailers. */
  function Expected(trace: seq<Arrival>, plans: map<string, Plan>): seq<Delivery> {
    if trace == [] then [] else
      var last := trace[|trace| - 1];
      var id := last.packet.streamId;
      Expected(trace[..|trace| - 1], plans) +
      if last.packet.payload.Trailer? && id in plans && plans[id].Complete()
      then Deliver(last.remoteId, Concat(plans[id].pieces)) else []
  }

  /** Where the k-th packet of the trace stands in its own stream. */
  lemma NextInStream(trace: seq<Arrival>, k: nat) returns (seen: nat)
    requires 0 < k <= |trace|
    ensures var p := trace[k - 1].packet;
      var stream := Project(trace, p.streamId);
      && seen < |stream| && stream[seen] == p.payload
      && stream[..seen] == Project(trace[..k - 1], p.streamId)
  {
    var p := trace[k - 1].packet;
    var here, before := trace[..k], trace[..k - 1];
    assert here[..k - 1] == before;
    ProjectPrefix(trace, k, p.streamId);
    var stream := Project(trace, p.streamId);
    var soFar := Project(here, p.streamId);
    assert soFar == Project(before, p.streamId) + [p.payload];
    seen := |Project(before, p.streamId)|;
    assert stream[..seen + 1] == soFar;
    assert stream[seen] == soFar[seen];
    assert stream[..seen] == soFar[..seen];
  }

  /** Whatever arrives, from any number of senders that keep to nothing: each packet hands on the
      body that its own stream's packets make whole, and nothing if they do not. */
  lemma HandedOnOnlyIfWhole(trace: seq<Arrival>, k: nat) returns (body: seq<Byte>)
    requires k < |trace|
    ensures ReceiveAll(trace[..k + 1]).delivered
         == ReceiveAll(trace[..k]).delivered + Deliver(trace[k].remoteId, body)
    ensures IsHandedOn(Project(trace[..k], trace[k].packet.streamId), trace[k].packet.payload, body)
  {
    var id, payload := trace[k].packet.streamId, trace[k].packet.payload;
    assert trace[..k + 1][..k] == trace[..k];
    StreamsAreIndependent(trace[..k], id);
    FinishedIsHandedOn(Project(trace[..k], id), payload);
    body := Finished(Fold(Project(trace[..k], id)), payload);
    ReceivedLast(trace[..k + 1]);
  }

  /** What the k-th packet of the trace hands on. */
  ghost predicate HandsOn(trace: seq<Arrival>, plans: map<string, Plan>, k: nat)
    requires 0 < k <= |trace|
  {
    var p := trace[k - 1].packet;
    && p.streamId in plans
    && Finished(Lookup(ReceiveAll(trace[..k - 1]).assemblies, p.streamId), p.payload)
    == if p.payload.Trailer? && plans[p.streamId].Complete()
       then Concat(plans[p.streamId].pieces) else []
  }

  lemma HandedOn(trace: seq<Arrival>, plans: map<string, Plan>, k: nat)
    requires WellFormed(trace, plans) && 0 < k <= |trace|
    ensures HandsOn(trace, plans, k)
  {
    var p := trace[k - 1].packet;
    assert trace[k - 1] in trace;
    StreamsAreIndependent(trace[..k - 1], p.streamId);
    var seen := NextInStream(trace, k);
    TransmissionResult(Project(trace, p.streamId), plans[p.streamId], seen);
  }

  lemma ReceivedLast(trace: seq<Arrival>)
    requires trace != []
    ensures var front, last := trace[..|trace| - 1], trace[|trace| - 1];
      ReceiveAll(trace).delivered == ReceiveAll(front).delivered + Deliver(last.remoteId,
        Finished(Lookup(ReceiveAll(front).assemblies, last.packet.streamId), last.packet.payload))
  {}

  lemma DeliveredStep(trace: seq<Arrival>, plans: map<string, Plan>, k: nat)
    requires 0 < k <= |trace| && HandsOn(trace, plans, k)
    requires ReceiveAll(trace[..k - 1]).delivered == Expected(trace[..k - 1], plans)
    ensures ReceiveAll(trace[..k]).delivered == Expected(trace[..k], plans)
  {
    var here := trace[..k];
    assert here[..|here| - 1] == trace[..k - 1] && here[|here| - 1] == trace[k - 1];
    ReceivedLast(here);
  }

  lemma {:induction false} DeliveredSoFar(trace: seq<Arrival>, plans: map<string, Plan>, k: nat)
    requires k <= |trace|
    requires forall i :: 0 < i <= |trace| ==> HandsOn(trace, plans, i)
    ensures ReceiveAll(trace[..k]).delivered == Expected(trace[..k], plans)
  {
    if k == 0 {
      assert trace[..k] == [];
    } else {
      DeliveredSoFar(trace, plans, k - 1);
      DeliveredStep(trace, plans, k);
    }
  }

  // ----- Each stream once -----

  /** The trailers of a trace, in order of arrival. */
  function Trailers(trace: seq<Arrival>): seq<Arrival> {
    if trace == [] then [] else
      var front, last := Trailers(trace[..|trace| - 1]), trace[|trace| - 1];
      if last.packet.payload.Trailer? then front + [last] else front
  }

  /** How often a stream ends. */
  function TimesEnded(trailers: seq<Arrival>, id: string): nat {
    if trailers == [] then 0 else
      TimesEnded(trailers[..|trailers| - 1], id) + if trailers[|trailers| - 1].packet.streamId == id then 1 else 0
  }

  /** The bodies of the plans that complete, in the order in which their streams end. */
  function Bodies(trailers: seq<Arrival>, plans: map<string, Plan>): seq<Delivery> {
    if trailers == [] then [] else
      var last := trailers[|trailers| - 1];
      var id := last.packet.streamId;
      Bodies(trailers[..|trailers| - 1], plans) +
      if id in plans && plans[id].Complete() then Deliver(last.remoteId, Concat(plans[id].pieces)) else []
  }

  lemma {:induction false} ExpectedIsBodies(trace: seq<Arrival>, plans: map<string, Plan>)
    ensures Expected(trace, plans) == Bodies(Trailers(trace), plans)
  {
    if trace != [] {
      var front, last := trace[..|trace| - 1], trace[|trace| - 1];
      ExpectedIsBodies(front, plans);
      if last.packet.payload.Trailer? {
        assert (Trailers(front) + [last])[..|Trailers(front)|] == Trailers(front);
      }
    }
  }

  function TrailerCount(payloads: seq<Payload>): nat {
    if payloads == [] then 0 else
      TrailerCount(payloads[..|payloads| - 1]) + if payloads[|payloads| - 1].Trailer? then 1 else 0
  }

  lemma {:induction false} NoTrailers(payloads: seq<Payload>)
    requires forall k :: 0 <= k < |payloads| ==> !payloads[k].Trailer?
    ensures TrailerCount(payloads) == 0
  {
    if payloads != [] { NoTrailers(payloads[..|payloads| - 1]); }
  }

  lemma OneTrailer(payloads: seq<Payload>, plan: Plan)
    requires IsTransmission(payloads, plan)
    ensures TrailerCount(payloads) == 1
  {
    var front := payloads[..|payloads| - 1];
    forall k | 0 <= k < |front| ensures !front[k].Trailer? { InnerPayloads(payloads, plan, k); }
    NoTrailers(front);
  }

  lemma {:induction false} EndsAreTrailers(trace: seq<Arrival>, id: string)
    ensures TimesEnded(Trailers(trace), id) == TrailerCount(Project(trace, id))
  {
    if trace == [] {
      assert Trailers(trace) == [] && Project(trace, id) == [];
    } else {
      var front, last := trace[..|trace| - 1], trace[|trace| - 1];
      EndsAreTrailers(front, id);
      LastEnded(Trailers(front), last, id);
      LastCounted(Project(front, id), last.packet.payload);
      assert Project(front, id) + [] == Project(front, id);
    }
  }

  lemma LastEnded(trailers: seq<Arrival>, last: Arrival, id: string)
    ensures TimesEnded(trailers + [last], id)
         == TimesEnded(trailers, id) + if last.packet.streamId == id then 1 else 0
  {
    assert (trailers + [last])[..|trailers|] == trailers;
  }

  lemma LastCounted(payloads: seq<Payload>, last: Payload)
    ensures TrailerCount(payloads + [last]) == TrailerCount(payloads) + if last.Trailer? then 1 else 0
  {
    assert (payloads + [last])[..|payloads|] == payloads;
  }

  /** The receiver hands on exactly the non-empty body of each complete stream, byte for byte, in
      the order of the trailers; each stream has one trailer, so its body comes once. No half-built
      stream is left. All this holds for every interleaving of any number of streams, and any order
      of the chunks within each. */
  lemma {:induction false} StreamsArriveIntact(trace: seq<Arrival>, plans: map<string, Plan>)
    requires WellFormed(trace, plans)
    ensures ReceiveAll(trace).delivered == Bodies(Trailers(trace), plans)
    ensures forall id :: TimesEnded(Trailers(trace), id) == if id in plans then 1 else 0
    ensures ReceiveAll(trace).assemblies == map[]
  {
    forall k | 0 < k <= |trace| ensures HandsOn(trace, plans, k) { HandedOn(trace, plans, k); }
    DeliveredSoFar(trace, plans, |trace|);
    assert trace[..|trace|] == trace;
    ExpectedIsBodies(trace, plans);
    forall id ensures TimesEnded(Trailers(trace), id) == if id in plans then 1 else 0 {
      EndsOnce(trace, plans, id);
    }
    forall id ensures id !in ReceiveAll(trace).assemblies {
      NothingLeft(trace, plans, id);
    }
  }

  lemma EndsOnce(trace: seq<Arrival>, plans: map<string, Plan>, id: string)
    requires WellFormed(trace, plans)
    ensures TimesEnded(Trailers(trace), id) == if id in plans then 1 else 0
  {
    EndsAreTrailers(trace, id);
    if id in plans {
      OneTrailer(Project(trace, id), plans[id]);
    } else {
      NothingForUnknownStream(trace, plans, id);
    }
  }

  lemma NothingLeft(trace: seq<Arrival>, plans: map<string, Plan>, id: string)
    requires WellFormed(trace, plans)
    ensures id !in ReceiveAll(trace).assemblies
  {
    StreamsAreIndependent(trace, id);
    if id !in plans {
      NothingForUnknownStream(trace, plans, id);
    }
  }

  predicate Delivers(plan: Plan) { plan.Complete() && Concat(plan.pieces) != [] }

  /** As many bodies are handed on as there are complete, non-empty streams. */
  lemma OneBodyPerStream(trace: seq<Arrival>, plans: map<string, Plan>)
    requires WellFormed(trace, plans)
    ensures |ReceiveAll(trace).delivered| == |set id | id in plans && Delivers(plans[id])|
  {
    StreamsArriveIntact(trace, plans);
    AllEnded(Trailers(trace), plans);
  }

  lemma AllEnded(trailers: seq<Arrival>, plans: map<string, Plan>)
    requires forall id :: TimesEnded(trailers, id) == if id in plans then 1 else 0
    ensures |Bodies(trailers, plans)| == |set id | id in plans && Delivers(plans[id])|
  {
    BodiesCount(trailers, plans);
    assert EndedAndDelivered(trailers, plans) == set id | id in plans && Delivers(plans[id]);
  }

  function EndedAndDelivered(trailers: seq<Arrival>, plans: map<string, Plan>): set<string> {
    set id | id in plans && TimesEnded(trailers, id) > 0 && Delivers(plans[id])
  }

  lemma {:induction false} BodiesCount(trailers: seq<Arrival>, plans: map<string, Plan>)
    requires forall id :: TimesEnded(trailers, id) <= 1
    ensures |Bodies(trailers, plans)| == |EndedAndDelivered(trailers, plans)|
  {
    if trailers != [] {
      var front := trailers[..|trailers| - 1];
      forall id ensures TimesEnded(front, id) <= 1 { assert TimesEnded(trailers, id) <= 1; }
      BodiesCount(front, plans);
      OneMoreEnded(trailers, plans);
    }
  }

  lemma OneMoreEnded(trailers: seq<Arrival>, plans: map<string, Plan>)
    requires trailers != [] && TimesEnded(trailers, trailers[|trailers| - 1].packet.streamId) <= 1
    ensures var front, id := trailers[..|trailers| - 1], trailers[|trailers| - 1].packet.streamId;
      && id !in EndedAndDelivered(front, plans)
      && EndedAndDelivered(trailers, plans)
         == EndedAndDelivered(front, plans) + if id in plans && Delivers(plans[id]) then {id} else {}
  {
    var front, id := trailers[..|trailers| - 1], trailers[|trailers| - 1].packet.streamId;
    forall other | other != id ensures TimesEnded(front, other) == TimesEnded(trailers, other) {}
  }

  // ----- From sender to receiver -----

  /** The bodies that were sent, in the order in which their streams end; empty ones are not
      handed on. */
  function SentBodies(trailers: seq<Arrival>, bodies: map<string, seq<Byte>>): seq<Delivery> {
    if trailers == [] then [] else
      var last := trailers[|trailers| - 1];
      var id := last.packet.streamId;
      SentBodies(trailers[..|trailers| - 1], bodies) +
      if id in bodies then Deliver(last.remoteId, bodies[id]) else []
  }

  function MemoryPlans(bodies: map<string, seq<Byte>>): map<string, Plan> {
    map id | id in bodies :: MemoryPlan(bodies[id])
  }

  /** Bodies sent from memory under distinct ids, their packets interleaved in any way, arrive as
      they were sent, each of the non-empty ones once. */
  lemma SentBodiesArrive(trace: seq<Arrival>, bodies: map<string, seq<Byte>>)
    requires forall a <- trace :: a.packet.streamId in bodies
    requires forall id <- bodies :: Project(trace, id) == Payloads(MemoryPlan(bodies[id]))
    ensures ReceiveAll(trace).delivered == SentBodies(Trailers(trace), bodies)
    ensures forall id :: TimesEnded(Trailers(trace), id) == if id in bodies then 1 else 0
    ensures |ReceiveAll(trace).delivered| == |set id | id in bodies && bodies[id] != []|
  {
    var plans := MemoryPlans(bodies);
    SentIsWellFormed(trace, bodies);
    StreamsArriveIntact(trace, plans);
    OneBodyPerStream(trace, plans);
    DeliversIffNotEmpty(bodies);
    BodiesAreSentBodies(Trailers(trace), bodies);
  }

  lemma SentIsWellFormed(trace: seq<Arrival>, bodies: map<string, seq<Byte>>)
    requires forall a <- trace :: a.packet.streamId in bodies
    requires forall id <- bodies :: Project(trace, id) == Payloads(MemoryPlan(bodies[id]))
    ensures WellFormed(trace, MemoryPlans(bodies))
  {
    forall id | id in bodies ensures IsTransmission(Project(trace, id), MemoryPlans(bodies)[id]) {
      SentIsTransmission(MemoryPlan(bodies[id]));
    }
  }

  lemma DeliversIffNotEmpty(bodies: map<string, seq<Byte>>)
    ensures var plans := MemoryPlans(bodies);
      (set id | id in plans && Delivers(plans[id])) == set id | id in bodies && bodies[id] != []
  {
    forall id | id in bodies ensures Delivers(MemoryPlans(bodies)[id]) <==> bodies[id] != [] {
      MemoryPlanIsComplete(bodies[id]);
    }
  }

  lemma {:induction false} BodiesAreSentBodies(trailers: seq<Arrival>, bodies: map<string, seq<Byte>>)
    ensures Bodies(trailers, MemoryPlans(bodies)) == SentBodies(trailers, bodies)
  {
    if trailers != [] {
      var id := trailers[|trailers| - 1].packet.streamId;
      BodiesAreSentBodies(trailers[..|trailers| - 1], bodies);
      if id in bodies { MemoryPlanIsComplete(bodies[id]); }
    }
  }

  lemma {:induction false} NothingForUnknownStream(trace: seq<Arrival>, plans: map<string, Plan>, id: string)
    requires forall a <- trace :: a.packet.streamId in plans
    requires id !in plans
    ensures Project(trace, id) == []
  {
    if trace != [] {
      assert trace[|trace| - 1] in trace;
      NothingForUnknownStream(trace[..|trace| - 1], plans, id);
    }
  }

  /** What the packets of one stream hand on, among those of all others. */
  function HandedOnBy(trace: seq<Arrival>, id: string): seq<Delivery> {
    if trace == [] then [] else
      var front, last := trace[..|trace| - 1], trace[|trace| - 1];
      HandedOnBy(front, id) +
      if last.packet.streamId == id
      then Deliver(last.remoteId, Finished(Lookup(ReceiveAll(front).assemblies, id), last.packet.payload)) else []
  }

  /** The body of a plan, once for each time its stream ends. */
  function EndBodies(trailers: seq<Arrival>, id: string, plan: Plan): seq<Delivery> {
    if trailers == [] then [] else
      var last := trailers[|trailers| - 1];
      EndBodies(trailers[..|trailers| - 1], id, plan) +
      if last.packet.streamId == id && plan.Complete() then Deliver(last.remoteId, Concat(plan.pieces)) else []
  }

  lemma {:induction false} HandedOnSoFar(trace: seq<Arrival>, plans: map<string, Plan>, id: string, k: nat)
    requires k <= |trace| && id in plans
    requires forall i :: 0 < i <= |trace| ==> HandsOn(trace, plans, i)
    ensures HandedOnBy(trace[..k], id) == EndBodies(Trailers(trace[..k]), id, plans[id])
  {
    if k == 0 {
      assert trace[..k] == [];
    } else {
      var here, front, last := trace[..k], trace[..k - 1], trace[k - 1];
      assert here[..|here| - 1] == front && here[|here| - 1] == last;
      HandedOnSoFar(trace, plans, id, k - 1);
      assert HandsOn(trace, plans, k);
      LastTrailer(Trailers(front), last, id, plans[id]);
    }
  }

  lemma LastTrailer(trailers: seq<Arrival>, last: Arrival, id: string, plan: Plan)
    ensures EndBodies(trailers + [last], id, plan) == EndBodies(trailers, id, plan)
      + (if last.packet.streamId == id && plan.Complete() then Deliver(last.remoteId, Concat(plan.pieces)) else [])
  {
    assert (trailers + [last])[..|trailers|] == trailers;
  }

  lemma {:induction false} NeverEnded(trailers: seq<Arrival>, id: string, plan: Plan)
    requires TimesEnded(trailers, id) == 0
    ensures EndBodies(trailers, id, plan) == []
  {
    if trailers != [] { NeverEnded(trailers[..|trailers| - 1], id, plan); }
  }

  lemma {:induction false} EndedOnce(trailers: seq<Arrival>, id: string, plan: Plan) returns (a: Arrival)
    requires TimesEnded(trailers, id) == 1
    ensures a in trailers && a.packet.streamId == id
    ensures EndBodies(trailers, id, plan) == if plan.Complete() then Deliver(a.remoteId, Concat(plan.pieces)) else []
  {
    var front, last := trailers[..|trailers| - 1], trailers[|trailers| - 1];
    if last.packet.streamId == id {
      NeverEnded(front, id, plan);
      a := last;
    } else {
      a := EndedOnce(front, id, plan);
    }
  }

  /** Among any other streams, a file is handed on, once and on behalf of the sender of its trailer,
      if and only if its reads give exactly the declared, non-zero, length. */
  lemma FileDeliveredIffLengthMatches(trace: seq<Arrival>, plans: map<string, Plan>, id: string)
    requires WellFormed(trace, plans) && id in plans
    ensures var plan := plans[id];
      exists a <- Trailers(trace) :: a.packet.streamId == id
        && HandedOnBy(trace, id)
           == if plan.Complete() && plan.declared > 0 then [Delivery(a.remoteId, Concat(plan.pieces))] else []
  {
    forall k | 0 < k <= |trace| ensures HandsOn(trace, plans, k) { HandedOn(trace, plans, k); }
    HandedOnSoFar(trace, plans, id, |trace|);
    assert trace[..|trace|] == trace;
    EndsOnce(trace, plans, id);
    var _ := EndedOnce(Trailers(trace), id, plans[id]);
  }

  /** If nothing but this stream is on the channel, that is all the receiver hands on. */
  lemma {:induction false} AloneOnTheChannel(trace: seq<Arrival>, id: string)
    requires forall a <- trace :: a.packet.streamId == id
    ensures ReceiveAll(trace).delivered == HandedOnBy(trace, id)
  {
    if trace != [] {
      assert trace[|trace| - 1] in trace;
      AloneOnTheChannel(trace[..|trace| - 1], id);
      ReceivedLast(trace);
    }
  }

  // ----- Sequence numbers on the lossy channel -----

  predicate Timely(trace: seq<Sequenced>) {
    forall i, j :: 0 <= i < j < |trace| ==> trace[i].now <= trace[j].now
  }

  predicate AcceptedAt(trace: seq<Sequenced>, i: nat)
    requires i < |trace|
  {
    Accepted(RememberAll(trace[..i]), trace[i])
  }

  lemma {:induction false} SequenceFloor(trace: seq<Sequenced>, i: nat, k: nat)
    requires Timely(trace) && i < k <= |trace|
    requires AcceptedAt(trace, i) && trace[i].sequence > 0
    requires trace[k - 1].now - trace[i].now < SEQUENCE_RESET_GAP
    ensures var last := LastOf(RememberAll(trace[..k]), trace[i]);
      last.sequence >= trace[i].sequence && last.receivedAt >= trace[i].now
    decreases k
  {
    assert trace[..k][..k - 1] == trace[..k - 1];
    if k > i + 1 {
      SequenceFloor(trace, i, k - 1);
    }
  }

  /** Two packets of the same sender and endpoint that are both accepted within a second of each
      other are in strictly increasing order, whatever came in between. */
  lemma AcceptedSequencesIncrease(trace: seq<Sequenced>, i: nat, j: nat)
    requires Timely(trace) && i < j < |trace|
    requires trace[i].remoteId == trace[j].remoteId && trace[i].endpoint == trace[j].endpoint
    requires trace[i].sequence > 0 && trace[j].sequence > 0
    requires AcceptedAt(trace, i) && AcceptedAt(trace, j)
    requires trace[j].now - trace[i].now < SEQUENCE_RESET_GAP
    ensures trace[i].sequence < trace[j].sequence
  {
    SequenceFloor(trace, i, j);
  }

  predicate SameSender(p: Sequenced, q: Sequenced) { p.remoteId == q.remoteId && p.endpoint == q.endpoint }

  /** Packet `j` is the last numbered one of this sender and endpoint accepted before `k`. */
  ghost predicate LastAccepted(trace: seq<Sequenced>, k: nat, p: Sequenced, j: nat)
    requires k <= |trace|
  {
    && j < k && SameSender(trace[j], p) && trace[j].sequence > 0 && AcceptedAt(trace, j)
    && forall i :: j < i < k && SameSender(trace[i], p) && trace[i].sequence > 0 ==> !AcceptedAt(trace, i)
  }

  lemma {:induction false} LastIsLastAccepted(trace: seq<Sequenced>, k: nat, p: Sequenced) returns (j: Option<nat>)
    requires k <= |trace|
    ensures j.Some? ==> LastAccepted(trace, k, p, j.value)
    ensures LastOf(RememberAll(trace[..k]), p)
         == if j.Some? then LastSequence(trace[j.value].sequence, trace[j.value].now) else LastSequence(0, 0)
    ensures j.None? ==>
      forall i :: 0 <= i < k && SameSender(trace[i], p) && trace[i].sequence > 0 ==> !AcceptedAt(trace, i)
  {
    j := None;
    if k > 0 {
      assert trace[..k][..k - 1] == trace[..k - 1];
      j := LastIsLastAccepted(trace, k - 1, p);
      var q := trace[k - 1];
      if SameSender(q, p) && q.sequence > 0 && AcceptedAt(trace, k - 1) {
        j := Some(k - 1);
      }
    }
  }

  /** A packet is accepted if and only if it has no number, or is the first with one, or its number
      is higher than that of the last one accepted, or a second has passed since that one came. */
  lemma AcceptedIff(trace: seq<Sequenced>, k: nat)
    requires k < |trace|
    ensures AcceptedAt(trace, k) <==>
      || trace[k].sequence == 0
      || forall j: nat :: LastAccepted(trace, k, trace[k], j) ==>
           trace[k].sequence > trace[j].sequence || trace[k].now - trace[j].now >= SEQUENCE_RESET_GAP
  {
    var j := LastIsLastAccepted(trace, k, trace[k]);
  }
}
