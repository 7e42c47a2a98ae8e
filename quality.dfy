/**
 * The tuner's stream-quality counter: it looks at 188-byte chunks in
 * place, counts packets, transport errors and scrambled packets, and
 * counts a drop whenever a PID's continuity counter does not follow the
 * previous one.
 */
module StreamQuality {
  import opened Bytes
  import opened TsPackets

  /** `TsStreamQuality` and `TsStreamQualityDelta`: the four counters. */
  datatype Quality = Quality(total: nat, dropped: nat, scrambled: nat, error: nat)
  {
    /** Counter by counter sum. */
    function Add(d: Quality): (r: Quality)
      ensures r.total == total + d.total && r.dropped == dropped + d.dropped
      ensures r.scrambled == scrambled + d.scrambled && r.error == error + d.error
    {
      Quality(total + d.total, dropped + d.dropped, scrambled + d.scrambled, error + d.error)
    }

    /** Every counter counts some of the packets. */
    predicate Bounded()
    {
      dropped <= total && scrambled <= total && error <= total
    }
  }

  /** All counters zero. */
  const Zero := Quality(0, 0, 0, 0)

  /** The counters summed over `deltas`. */
  function Sum(deltas: seq<Quality>): (r: Quality)
  {
    if deltas == [] then Zero else Sum(deltas[..|deltas| - 1]).Add(deltas[|deltas| - 1])
  }

  /** Sums of bounded counters are bounded. */
  lemma {:induction false} SumBounded(deltas: seq<Quality>)
    requires forall i :: 0 <= i < |deltas| ==> deltas[i].Bounded()
    ensures Sum(deltas).Bounded()
  {
    if deltas != [] {
      SumBounded(deltas[..|deltas| - 1]);
    }
  }

  /** The continuity counter that should follow `last`. */
  function NextCc(last: nat): (r: nat)
    ensures r < 16 && (last < 16 ==> r == (last + 1) % 16)
  {
    (last + 1) % 16
  }

  /** Whether a packet with header `h` counts as a drop, given the last continuity counter per PID. */
  predicate IsDrop(lastCc: map<nat, nat>, h: TsHeader)
  {
    h.pid != NULL_PID && h.HasPayload() && h.pid in lastCc && h.continuityCounter != NextCc(lastCc[h.pid])
  }

  /** The counters of one packet led by the sync byte, and the continuity memory after it. */
  function PacketDelta(lastCc: map<nat, nat>, h: TsHeader): (r: (Quality, map<nat, nat>))
    requires h.WellFormed()
    ensures r.0.total == 1 && r.0.Bounded()
    ensures r.0.error == (if h.transportError then 1 else 0)
    ensures r.0.scrambled == (if h.scramblingControl != 0 then 1 else 0)
    ensures r.0.dropped == 1 <==> IsDrop(lastCc, h)
    ensures h.pid == NULL_PID || !h.HasPayload() ==> r.1 == lastCc
    ensures h.pid != NULL_PID && h.HasPayload() ==> r.1 == lastCc[h.pid := h.continuityCounter]
  {
    var q := Quality(1, if IsDrop(lastCc, h) then 1 else 0,
                     if h.scramblingControl != 0 then 1 else 0, if h.transportError then 1 else 0);
    if h.pid == NULL_PID || !h.HasPayload() then (q, lastCc)
    else (q, lastCc[h.pid := h.continuityCounter])
  }

  /** The header of the chunk at `offset`. */
  function ChunkHeader(data: seq<byte>, offset: nat): (h: TsHeader)
    requires offset + TS_PACKET_SIZE <= |data|
  {
    ParseHeader(data[offset + 1], data[offset + 2], data[offset + 3])
  }

  /** The number of chunks from `offset` on that start with the sync byte. */
  function SyncedChunks(data: seq<byte>, offset: nat): (r: nat)
    decreases |data| - offset
  {
    if offset + TS_PACKET_SIZE > |data| then 0
    else (if data[offset] == SYNC_BYTE then 1 else 0) + SyncedChunks(data, offset + TS_PACKET_SIZE)
  }

  /**
   * `analyze` from `offset`: every 188-byte chunk in place, skipping those
   * not led by the sync byte; the counters and the continuity memory after.
   */
  function AnalyzeFrom(lastCc: map<nat, nat>, data: seq<byte>, offset: nat): (r: (Quality, map<nat, nat>))
    decreases |data| - offset
  {
    if offset + TS_PACKET_SIZE > |data| then (Zero, lastCc)
    else if data[offset] != SYNC_BYTE then AnalyzeFrom(lastCc, data, offset + TS_PACKET_SIZE)
    else
      var (q, cc) := PacketDelta(lastCc, ChunkHeader(data, offset));
      var (rest, cc') := AnalyzeFrom(cc, data, offset + TS_PACKET_SIZE);
      (q.Add(rest), cc')
  }

  /** Every chunk led by the sync byte is counted once, and every other counter is bounded by that count. */
  lemma {:induction false} AnalyzeCounts(lastCc: map<nat, nat>, data: seq<byte>, offset: nat)
    ensures AnalyzeFrom(lastCc, data, offset).0.total == SyncedChunks(data, offset)
    ensures AnalyzeFrom(lastCc, data, offset).0.Bounded()
    decreases |data| - offset
  {
    if offset + TS_PACKET_SIZE <= |data| {
      AnalyzeCounts(lastCc, data, offset + TS_PACKET_SIZE);
      if data[offset] == SYNC_BYTE {
        var (q, cc) := PacketDelta(lastCc, ChunkHeader(data, offset));
        AnalyzeCounts(cc, data, offset + TS_PACKET_SIZE);
      }
    }
  }

  /** There are at most as many packets as whole chunks. */
  lemma {:induction false} SyncedChunksBound(data: seq<byte>, offset: nat)
    requires offset <= |data|
    ensures SyncedChunks(data, offset) <= (|data| - offset) / TS_PACKET_SIZE
    decreases |data| - offset
  {
    if offset + TS_PACKET_SIZE <= |data| {
      SyncedChunksBound(data, offset + TS_PACKET_SIZE);
    }
  }

  /** The chunk after a packet on the same PID whose counter does not follow is a drop; one whose counter follows is not. */
  lemma ConsecutiveCounters(lastCc: map<nat, nat>, h: TsHeader, h2: TsHeader)
    requires h.WellFormed() && h2.WellFormed()
    requires h.pid == h2.pid && h.pid != NULL_PID && h.HasPayload() && h2.HasPayload()
    ensures var cc := PacketDelta(lastCc, h).1;
      PacketDelta(cc, h2).0.dropped == (if h2.continuityCounter == (h.continuityCounter + 1) % 16 then 0 else 1)
  {
  }

  /** `TsPacketAnalyzer` */
  class TsPacketAnalyzer {
    var lastCc: map<nat, nat>
    var quality: Quality
    /** The deltas returned since creation or the last reset. */
    ghost var deltas: seq<Quality>

    /** The snapshot is the sum of the deltas returned. */
    ghost predicate Valid()
      reads this
    {
      quality == Sum(deltas) && forall i :: 0 <= i < |deltas| ==> deltas[i].Bounded()
    }

    /** `new` */
    constructor ()
      ensures Valid() && lastCc == map[] && quality == Zero && deltas == []
    {
      lastCc := map[];
      quality := Zero;
      deltas := [];
    }

    /** `analyze`: the counters of the packets of `data`, also added to the running totals. */
    method Analyze(data: seq<byte>) returns (delta: Quality)
      requires Valid()
      modifies this
      ensures Valid() && deltas == old(deltas) + [delta]
      ensures (delta, lastCc) == AnalyzeFrom(old(lastCc), data, 0)
      ensures quality == old(quality).Add(delta)
    {
      ghost var cc0 := lastCc;
      var seen;
      delta, seen := Count(lastCc, data);
      AnalyzeCounts(cc0, data, 0);
      lastCc := seen;
      quality := quality.Add(delta);
      deltas := deltas + [delta];
      assert deltas[..|deltas| - 1] == old(deltas);
    }

    /** `snapshot` */
    function Snapshot(): (q: Quality)
      requires Valid()
      reads this
      ensures q == Sum(deltas) && q.Bounded()
    {
      SumBounded(deltas);
      quality
    }

    /** `reset`: all counters zero and no continuity memory. */
    method Reset()
      modifies this
      ensures Valid() && lastCc == map[] && quality == Zero && deltas == []
    {
      quality := Zero;
      lastCc := map[];
      deltas := [];
    }
  }

  /** What the loop of `analyze` keeps: the counters so far plus those of the rest are those of the whole. */
  predicate Accounts(lastCc: map<nat, nat>, data: seq<byte>, delta: Quality, seen: map<nat, nat>, offset: nat)
  {
    AnalyzeFrom(lastCc, data, 0) == (delta.Add(AnalyzeFrom(seen, data, offset).0), AnalyzeFrom(seen, data, offset).1)
  }

  /** A chunk not led by the sync byte changes nothing. */
  lemma SkipStep(lastCc: map<nat, nat>, data: seq<byte>, delta: Quality, seen: map<nat, nat>, chunk: nat)
    requires chunk + TS_PACKET_SIZE <= |data| && data[chunk] != SYNC_BYTE
    requires Accounts(lastCc, data, delta, seen, chunk)
    ensures Accounts(lastCc, data, delta, seen, chunk + TS_PACKET_SIZE)
  {
  }

  /** A packet moves its counters from the rest into the counters so far. */
  lemma PacketStep(lastCc: map<nat, nat>, data: seq<byte>, delta: Quality, seen: map<nat, nat>, chunk: nat,
                   newDelta: Quality, next: map<nat, nat>)
    requires chunk + TS_PACKET_SIZE <= |data| && data[chunk] == SYNC_BYTE
    requires Accounts(lastCc, data, delta, seen, chunk)
    requires newDelta == delta.Add(PacketDelta(seen, ChunkHeader(data, chunk)).0)
    requires next == PacketDelta(seen, ChunkHeader(data, chunk)).1
    ensures Accounts(lastCc, data, newDelta, next, chunk + TS_PACKET_SIZE)
  {
    AddAssociative(delta, PacketDelta(seen, ChunkHeader(data, chunk)).0, AnalyzeFrom(next, data, chunk + TS_PACKET_SIZE).0);
  }

  /** Once no whole chunk is left, the counters so far are those of the whole. */
  lemma CountEnd(lastCc: map<nat, nat>, data: seq<byte>, delta: Quality, seen: map<nat, nat>, offset: nat)
    requires offset + TS_PACKET_SIZE > |data| && Accounts(lastCc, data, delta, seen, offset)
    ensures (delta, seen) == AnalyzeFrom(lastCc, data, 0)
  {
    assert AnalyzeFrom(seen, data, offset) == (Zero, seen);
    assert delta.Add(Zero) == delta;
  }

  /** The loop of `analyze`: the counters and continuity memory after the chunks of `data`. */
  method Count(lastCc: map<nat, nat>, data: seq<byte>) returns (delta: Quality, seen: map<nat, nat>)
    ensures (delta, seen) == AnalyzeFrom(lastCc, data, 0)
  {
    delta := Zero;
    seen := lastCc;
    var offset := 0;
    while offset + TS_PACKET_SIZE <= |data|
      invariant Accounts(lastCc, data, delta, seen, offset)
      decreases |data| - offset
    {
      delta, seen := CountChunk(lastCc, data, delta, seen, offset);
      offset := offset + TS_PACKET_SIZE;
    }
    CountEnd(lastCc, data, delta, seen, offset);
  }

  /** One turn of the loop of `analyze`: a chunk led by the sync byte is counted, any other skipped. */
  method CountChunk(lastCc: map<nat, nat>, data: seq<byte>, delta: Quality, seen: map<nat, nat>, offset: nat)
    returns (newDelta: Quality, next: map<nat, nat>)
    requires offset + TS_PACKET_SIZE <= |data| && Accounts(lastCc, data, delta, seen, offset)
    ensures Accounts(lastCc, data, newDelta, next, offset + TS_PACKET_SIZE)
  {
    if data[offset] != SYNC_BYTE {
      SkipStep(lastCc, data, delta, seen, offset);
      return delta, seen;
    }
    var d := PacketDelta(seen, ChunkHeader(data, offset));
    newDelta := delta.Add(d.0);
    next := d.1;
    PacketStep(lastCc, data, delta, seen, offset, newDelta, next);
  }

  /** Counter sums can be regrouped. */
  lemma AddAssociative(a: Quality, b: Quality, c: Quality)
    ensures a.Add(b).Add(c) == a.Add(b.Add(c))
  {
  }
}
