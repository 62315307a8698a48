/**
 The receiver as it works in place: a staging file, a coalesced range table, a packet table
 and a byte counter per epoch. Every operation is proved to act on the `Epoch` the fields
 stand for exactly as the reference in `Reassembly` does.
 */
module FileReassembler {
  import opened Bytes
  import opened FilePackets
  import opened IntervalIndex
  import opened Reassembly
  import CfdpChecksum

  const MAX_OVERLAP_ROWS: nat := MAX_FILE_DATA_PER_FRAME + 2

  datatype PacketRow = PacketRow(offset: nat, length: nat, sha: int)

  /** The staging bytes at covered offsets. */
  ghost function Content(part: seq<byte>, ranges: Ranges): map<nat, byte> {
    map x: nat | 0 <= x < |part| && Covers(ranges, x) :: part[x]
  }

  ghost function Placements(packets: map<nat, PacketRow>): map<nat, Placement> {
    map k | k in packets :: Placement(packets[k].offset, packets[k].length)
  }

  /** Seek-and-write on a file: a gap left behind the old end reads as zeros. */
  function WriteAt(part: seq<byte>, offset: nat, payload: seq<byte>): (out: seq<byte>)
    ensures |out| == if offset + |payload| > |part| then offset + |payload| else |part|
    ensures forall x: nat :: offset <= x < offset + |payload| ==> out[x] == payload[x - offset]
    ensures forall x: nat :: x < |part| && !(offset <= x < offset + |payload|) ==> out[x] == part[x]
  {
    var padded := if |part| < offset then part + seq(offset - |part|, _ => 0) else part;
    if offset + |payload| <= |padded| then padded[..offset] + payload + padded[offset + |payload|..]
    else padded[..offset] + payload
  }

  /** The range table fits the staging file and the counter is its size. */
  ghost predicate TableFits(part: seq<byte>, ranges: Ranges, size: nat) {
    && WellFormed(ranges)
    && |part| <= size
    && (forall i :: 0 <= i < |ranges| ==> ranges[i].end <= |part|)
  }

  /** Each packet row keeps the digest of the bytes it placed. */
  ghost predicate RowsHashed(part: seq<byte>, packets: map<nat, PacketRow>, sha256: seq<byte> -> int) {
    forall k :: k in packets ==>
      && packets[k].offset + packets[k].length <= |part|
      && packets[k].sha == sha256(part[packets[k].offset..packets[k].offset + packets[k].length])
  }

  /** Every recorded packet is covered. */
  ghost predicate AllPlaced(part: seq<byte>, ranges: Ranges, packets: map<nat, PacketRow>) {
    forall k :: k in packets ==> Placed(Content(part, ranges), Placement(packets[k].offset, packets[k].length))
  }

  lemma ContentSize(part: seq<byte>, ranges: Ranges, size: nat)
    requires TableFits(part, ranges, size)
    ensures |Content(part, ranges)| == Size(ranges)
    ensures forall x: nat :: Covers(ranges, x) ==> x in Content(part, ranges)
  {
    SizeIsCardinality(ranges, |part|);
    assert Content(part, ranges).Keys == CoveredBelow(ranges, |part|);
  }

  lemma ContentAfterWrite(part: seq<byte>, ranges: Ranges, merged: Ranges, offset: nat, payload: seq<byte>)
    requires forall x: nat :: Covers(merged, x) <==> Covers(ranges, x) || offset <= x < offset + |payload|
    requires forall x: nat :: Covers(ranges, x) ==> x < |part|
    ensures Content(WriteAt(part, offset, payload), merged) == Content(part, ranges) + Segment(offset, payload)
  {
  }

  /** Writing agreeing bytes changes no covered byte, so recorded digests stay right. */
  lemma RowsStayHashed(part: seq<byte>, packets: map<nat, PacketRow>, ranges: Ranges, offset: nat, payload: seq<byte>,
                       sha256: seq<byte> -> int)
    requires RowsHashed(part, packets, sha256)
    requires AllPlaced(part, ranges, packets)
    requires Agrees(Content(part, ranges), offset, payload)
    ensures RowsHashed(WriteAt(part, offset, payload), packets, sha256)
  {
    var out := WriteAt(part, offset, payload);
    forall k | k in packets
      ensures packets[k].offset + packets[k].length <= |out|
      ensures packets[k].sha == sha256(out[packets[k].offset..packets[k].offset + packets[k].length])
    {
      var o, n := packets[k].offset, packets[k].length;
      assert Placed(Content(part, ranges), Placement(o, n));
      forall x | o <= x < o + n ensures out[x] == part[x] {
        assert x in Content(part, ranges);
      }
      assert out[o..o + n] == part[o..o + n];
    }
  }

  /** Rows `lo` to `hi` of the range table. */
  datatype RowSpan = RowSpan(lo: nat, hi: nat)

  /** No staging byte of one row differs from the payload. */
  ghost predicate RowAgrees(part: seq<byte>, row: Row, offset: nat, payload: seq<byte>)
    requires row.end <= |part|
  {
    forall x: nat :: row.start <= x < row.end && Within(x, offset, |payload|) ==> part[x] == payload[x - offset]
  }

  /** Compares a payload with the staging bytes of the part of a row it overlaps. */
  method CompareRow(part: seq<byte>, row: Row, offset: nat, payload: seq<byte>) returns (agree: bool)
    requires row.end <= |part|
    ensures agree <==> RowAgrees(part, row, offset, payload)
  {
    var end := offset + |payload|;
    var overlapStart := if row.start > offset then row.start else offset;
    var overlapEnd := if row.end < end then row.end else end;
    if overlapStart >= overlapEnd {
      return true;
    }
    var existing := part[overlapStart..overlapEnd];
    var incoming := payload[overlapStart - offset..overlapEnd - offset];
    agree := existing == incoming;
    if agree {
      forall x: nat | row.start <= x < row.end && Within(x, offset, |payload|) ensures part[x] == payload[x - offset] {
        assert existing[x - overlapStart] == incoming[x - overlapStart];
      }
    } else {
      ghost var d :| 0 <= d < |existing| && existing[d] != incoming[d];
      assert Within(overlapStart + d, offset, |payload|);
    }
  }

  /** Compares a payload with the staging bytes of every overlapped row. */
  method OverlapsAgree(part: seq<byte>, rows: Ranges, offset: nat, payload: seq<byte>) returns (agree: bool)
    requires forall i :: 0 <= i < |rows| ==> rows[i].end <= |part|
    ensures agree <==> forall i :: 0 <= i < |rows| ==> RowAgrees(part, rows[i], offset, payload)
  {
    for k := 0 to |rows|
      invariant forall i :: 0 <= i < k ==> RowAgrees(part, rows[i], offset, payload)
    {
      var same := CompareRow(part, rows[k], offset, payload);
      if !same {
        return false;
      }
    }
    agree := true;
  }

  /** Only the touching rows can disagree with a payload. */
  lemma TouchingDecides(part: seq<byte>, ranges: Ranges, lo: nat, hi: nat, offset: nat, payload: seq<byte>)
    requires IsTouching(ranges, offset, offset + |payload|, lo, hi)
    requires forall i :: 0 <= i < |ranges| ==> ranges[i].end <= |part|
    ensures Agrees(Content(part, ranges), offset, payload)
      <==> forall i :: 0 <= i < hi - lo ==> RowAgrees(part, ranges[lo..hi][i], offset, payload)
  {
    if Agrees(Content(part, ranges), offset, payload) {
      forall i | 0 <= i < hi - lo ensures RowAgrees(part, ranges[lo..hi][i], offset, payload) {
        assert ranges[lo..hi][i] == ranges[lo + i];
        forall x: nat | ranges[lo + i].start <= x < ranges[lo + i].end && Within(x, offset, |payload|)
          ensures part[x] == payload[x - offset]
        {
          assert Covers(ranges, x);
          assert x in Content(part, ranges);
        }
      }
    }
    if forall i :: 0 <= i < hi - lo ==> RowAgrees(part, ranges[lo..hi][i], offset, payload) {
      forall x | x in Content(part, ranges) && offset <= x < offset + |payload|
        ensures part[x] == payload[x - offset]
      {
        var i :| 0 <= i < |ranges| && ranges[i].start <= x < ranges[i].end;
        assert lo <= i < hi && ranges[lo..hi][i - lo] == ranges[i];
        assert Within(x, offset, |payload|);
      }
    }
  }

  /** The fields after a packet has been stored stand for the epoch that has accepted it. */
  lemma StoredFields(part: seq<byte>, ranges: Ranges, merged: Ranges, packets: map<nat, PacketRow>, size: nat,
                     index: nat, offset: nat, payload: seq<byte>, sha256: seq<byte> -> int)
    requires TableFits(part, ranges, size) && RowsHashed(part, packets, sha256)
    requires AllPlaced(part, ranges, packets)
    requires Agrees(Content(part, ranges), offset, payload) && offset + |payload| <= size
    requires WellFormed(merged)
    requires forall x: nat :: Covers(merged, x) <==> Covers(ranges, x) || offset <= x < offset + |payload|
    ensures var out := WriteAt(part, offset, payload);
      var recorded := packets[index := PacketRow(offset, |payload|, sha256(payload))];
      && TableFits(out, merged, size) && RowsHashed(out, recorded, sha256)
      && Content(out, merged) == Content(part, ranges) + Segment(offset, payload)
      && |Content(out, merged)| == Size(merged)
      && Placements(recorded) == Placements(packets)[index := Placement(offset, |payload|)]
  {
    ContentSize(part, ranges, size);
    ContentAfterWrite(part, ranges, merged, offset, payload);
    RowsStayHashed(part, packets, ranges, offset, payload, sha256);
    EndsStayInside(ranges, merged, |part|, offset, offset + |payload|, |WriteAt(part, offset, payload)|);
    ContentSize(WriteAt(part, offset, payload), merged, size);
    NewRowHashed(WriteAt(part, offset, payload), packets, index, offset, payload, sha256);
  }

  lemma NewRowHashed(out: seq<byte>, packets: map<nat, PacketRow>, index: nat, offset: nat, payload: seq<byte>,
                     sha256: seq<byte> -> int)
    requires RowsHashed(out, packets, sha256)
    requires offset + |payload| <= |out|
    requires forall x: nat :: offset <= x < offset + |payload| ==> out[x] == payload[x - offset]
    ensures RowsHashed(out, packets[index := PacketRow(offset, |payload|, sha256(payload))], sha256)
    ensures Placements(packets[index := PacketRow(offset, |payload|, sha256(payload))])
         == Placements(packets)[index := Placement(offset, |payload|)]
  {
    assert out[offset..offset + |payload|] == payload;
  }

  /** The bounded overlap query; no DATA payload can reach its row limit. */
  method OverlapRanges(ranges: Ranges, start: nat, end: nat) returns (r: Result<RowSpan, Error>)
    requires WellFormed(ranges) && start <= end <= start + MAX_FILE_DATA_PER_FRAME
    ensures r.Ok? && IsTouching(ranges, start, end, r.value.lo, r.value.hi)
  {
    var lo, hi := FindTouching(ranges, start, end);
    TouchingIsBounded(ranges, start, end, lo, hi);
    r := if hi - lo > MAX_OVERLAP_ROWS then Err(MetadataLimit) else Ok(RowSpan(lo, hi));
  }

  /** New field values for one stored packet. */
  datatype Stored = Stored(part: seq<byte>, ranges: Ranges, packets: map<nat, PacketRow>, added: int)

  /** The rows a payload touches, unless a staging byte differs from the payload. */
  method CheckOverlap(part: seq<byte>, ranges: Ranges, offset: nat, payload: seq<byte>, ghost size: nat)
    returns (r: Result<RowSpan, Error>)
    requires TableFits(part, ranges, size) && |payload| <= MAX_FILE_DATA_PER_FRAME
    ensures r.Ok? <==> Agrees(Content(part, ranges), offset, payload)
    ensures r.Ok? ==> IsTouching(ranges, offset, offset + |payload|, r.value.lo, r.value.hi)
    ensures r.Err? ==> r.error == PacketConflict
  {
    var rows := OverlapRanges(ranges, offset, offset + |payload|);
    TouchingDecides(part, ranges, rows.value.lo, rows.value.hi, offset, payload);
    var agree := OverlapsAgree(part, ranges[rows.value.lo..rows.value.hi], offset, payload);
    r := if agree then rows else Err(PacketConflict);
  }

  /** Write the bytes, merge the rows, record the packet. */
  method PlanStore(part: seq<byte>, ranges: Ranges, packets: map<nat, PacketRow>, p: FilePacket, rows: RowSpan,
                   env: Env, ghost size: nat)
    returns (s: Stored)
    requires TableFits(part, ranges, size) && RowsHashed(part, packets, env.sha256) && AllPlaced(part, ranges, packets)
    requires p.payload != [] && p.offset + |p.payload| <= size && Agrees(Content(part, ranges), p.offset, p.payload)
    requires IsTouching(ranges, p.offset, p.offset + |p.payload|, rows.lo, rows.hi)
    ensures TableFits(s.part, s.ranges, size)
    ensures RowsHashed(s.part, s.packets, env.sha256)
    ensures Content(s.part, s.ranges) == Content(part, ranges) + Segment(p.offset, p.payload)
    ensures |Content(s.part, s.ranges)| == |Content(part, ranges)| + s.added
    ensures Placements(s.packets) == Placements(packets)[p.sequenceIndex := Placement(p.offset, |p.payload|)]
  {
    var merged, added := Absorb(ranges, p.offset, p.offset + |p.payload|, rows.lo, rows.hi);
    StoredFields(part, ranges, merged, packets, size, p.sequenceIndex, p.offset, p.payload, env.sha256);
    ContentSize(part, ranges, size);
    hide *;
    s := Stored(WriteAt(part, p.offset, p.payload), merged,
                packets[p.sequenceIndex := PacketRow(p.offset, |p.payload|, env.sha256(p.payload))], added);
  }

  /** Putting planned fields in place is accepting the packet. */
  lemma Planned(e: Epoch, p: FilePacket, now: int, env: Env, plan: Stored)
    requires EpochInv(e, env) && e.status == RECEIVING && e.received == |e.content|
    requires 0 < p.sequenceIndex && p.sequenceIndex !in e.packets
    requires p.payload != [] && p.offset + |p.payload| <= e.meta.size && Agrees(e.content, p.offset, p.payload)
    requires Content(plan.part, plan.ranges) == e.content + Segment(p.offset, p.payload)
    requires |Content(plan.part, plan.ranges)| == |e.content| + plan.added
    requires Placements(plan.packets) == e.packets[p.sequenceIndex := Placement(p.offset, |p.payload|)]
    ensures e.received + plan.added >= 0
    ensures var after := e.(content := Content(plan.part, plan.ranges), packets := Placements(plan.packets),
                            received := e.received + plan.added, updatedAt := now);
      AcceptData(e, p, now) == Ok(after) && EpochInv(after, env)
  {
    hide EpochInv, Agrees, Content, Placements, Segment, Placed, Consistent;
    assert plan.added >= 0 by { SegmentOnlyAdds(e.content, Segment(p.offset, p.payload)); }
    DataKeepsInv(e, p, now, env);
  }

  lemma SegmentOnlyAdds(content: map<nat, byte>, more: map<nat, byte>)
    ensures |content + more| >= |content|
  {
    assert (content + more).Keys == content.Keys + more.Keys;
    SubsetSize(content.Keys, content.Keys + more.Keys);
  }

  /** Where every position is covered, agreeing means being equal. */
  lemma SliceDecides(part: seq<byte>, ranges: Ranges, offset: nat, payload: seq<byte>)
    requires offset + |payload| <= |part|
    requires payload == [] || Placed(Content(part, ranges), Placement(offset, |payload|))
    ensures Agrees(Content(part, ranges), offset, payload) <==> part[offset..offset + |payload|] == payload
  {
    var existing := part[offset..offset + |payload|];
    if Agrees(Content(part, ranges), offset, payload) {
      forall d | 0 <= d < |payload| ensures existing[d] == payload[d] {
        assert offset + d in Content(part, ranges);
      }
    }
    if existing == payload {
      forall x | x in Content(part, ranges) && offset <= x < offset + |payload|
        ensures part[x] == payload[x - offset]
      {
        assert existing[x - offset] == payload[x - offset];
      }
    }
  }

  lemma RepeatDecides(part: seq<byte>, ranges: Ranges, row: PacketRow, offset: nat, payload: seq<byte>,
                      sha256: seq<byte> -> int)
    requires row.offset + row.length <= |part| && row.sha == sha256(part[row.offset..row.offset + row.length])
    requires Placed(Content(part, ranges), Placement(row.offset, row.length))
    ensures (row.offset == offset && row.length == |payload| && row.sha == sha256(payload)
             && part[offset..offset + |payload|] == payload)
      <==> Placement(row.offset, row.length) == Placement(offset, |payload|) && Agrees(Content(part, ranges), offset, payload)
  {
    if row.offset == offset && row.length == |payload| {
      SliceDecides(part, ranges, offset, payload);
    }
  }

  class EpochState {
    const meta: Meta
    var status: Status
    var reason: Reason
    var part: seq<byte>
    var ranges: Ranges
    var packets: map<nat, PacketRow>
    var bytesReceived: nat
    var terminal: Option<Terminal>
    var product: Option<seq<byte>>
    var updatedAt: int

    /** The reference epoch these fields stand for. */
    ghost function Value(): Epoch
      reads this
    {
      Epoch(meta, status, reason, Content(part, ranges), Placements(packets), bytesReceived, terminal, product, updatedAt)
    }

    ghost predicate Valid(env: Env)
      reads this
    {
      && EpochInv(Value(), env)
      && TableFits(part, ranges, meta.size)
      && RowsHashed(part, packets, env.sha256)
      && (status != RECEIVING ==> ranges == [] && packets == map[] && part == [])
    }

    constructor (meta: Meta, now: int, ghost env: Env)
      requires 0 < meta.size
      ensures Value() == NewEpoch(meta, now) && Valid(env)
      ensures this.meta == meta
    {
      this.meta := meta;
      status, reason, part, ranges, packets := RECEIVING, NoReason, [], [], map[];
      bytesReceived, terminal, product, updatedAt := 0, None, None, now;
    }

    lemma MetaOfValue()
      ensures Value().meta == meta
    {
    }

    /** A repeated sequence index must name the same place, the same digest and the same bytes. */
    method DuplicateMatches(p: FilePacket, env: Env) returns (same: bool)
      requires Valid(env) && status == RECEIVING && p.sequenceIndex in packets
      requires p.payload != []
      ensures same == (Placements(packets)[p.sequenceIndex] == Placement(p.offset, |p.payload|)
                       && Agrees(Content(part, ranges), p.offset, p.payload))
    {
      var row := packets[p.sequenceIndex];
      assert Placed(Value().content, Value().packets[p.sequenceIndex]);
      RepeatDecides(part, ranges, row, p.offset, p.payload, env.sha256);
      same := row.offset == p.offset && row.length == |p.payload| && row.sha == env.sha256(p.payload)
        && part[p.offset..p.offset + |p.payload|] == p.payload;
    }

    method Data(p: FilePacket, now: int, env: Env) returns (r: Result<(), Error>)
      requires Valid(env) && status == RECEIVING
      requires p.Valid() && p.kind == DATA
      modifies this
      ensures Valid(env)
      ensures AcceptData(old(Value()), p, now).Ok? ==>
        r.Ok? && Value() == AcceptData(old(Value()), p, now).value
      ensures AcceptData(old(Value()), p, now).Err? ==>
        r == Err(AcceptData(old(Value()), p, now).error) && Value() == old(Value())
    {
      if p.sequenceIndex == 0 {
        return Err(InvalidData);
      }
      if p.offset > meta.size || p.payload == [] || |p.payload| > meta.size - p.offset {
        return Err(DataRangeInvalid);
      }
      if p.sequenceIndex in packets {
        var same := DuplicateMatches(p, env);
        return if same then Ok(()) else Err(PacketConflict);
      }
      r := NewData(p, now, env);
    }

    /** A DATA packet whose sequence index has not been seen. */
    method NewData(p: FilePacket, now: int, env: Env) returns (r: Result<(), Error>)
      requires Valid(env) && status == RECEIVING
      requires p.Valid() && p.kind == DATA
      requires 0 < p.sequenceIndex && p.sequenceIndex !in packets
      requires p.payload != [] && p.offset + |p.payload| <= meta.size
      modifies this
      ensures Valid(env)
      ensures if Agrees(old(Value()).content, p.offset, p.payload)
              then r.Ok? && AcceptData(old(Value()), p, now) == Ok(Value())
              else r == Err(PacketConflict) && Value() == old(Value())
    {
      PlacementsCovered(env);
      assert p.sequenceIndex !in Value().packets;
      assert Value().received == |Value().content|;
      hide RowsHashed, TableFits, Agrees, AllPlaced, Content, Placements, Segment, EpochInv, AcceptData;
      ghost var before := Value();
      var rows := CheckOverlap(part, ranges, p.offset, p.payload, meta.size);
      if rows.Err? {
        return Err(rows.error);
      }
      var plan := PlanStore(part, ranges, packets, p, rows.value, env, meta.size);
      Planned(before, p, now, env, plan);
      Put(plan, now);
      r := Ok(());
    }

    method Put(plan: Stored, now: int)
      requires bytesReceived + plan.added >= 0
      modifies this
      ensures Value() == old(Value()).(content := Content(plan.part, plan.ranges), packets := Placements(plan.packets),
                                       received := old(bytesReceived) + plan.added, updatedAt := now)
      ensures part == plan.part && ranges == plan.ranges && packets == plan.packets
    {
      hide Content, Placements;
      part, ranges, packets := plan.part, plan.ranges, plan.packets;
      bytesReceived, updatedAt := bytesReceived + plan.added, now;
    }

    lemma PlacementsCovered(env: Env)
      requires Valid(env) && status == RECEIVING
      ensures AllPlaced(part, ranges, packets)
    {
      forall k | k in packets ensures Placed(Content(part, ranges), Placement(packets[k].offset, packets[k].length)) {
        assert Placed(Value().content, Value().packets[k]);
      }
    }

    /** Highest stored sequence index plus one. */
    method NextSequenceIndex() returns (n: nat)
      ensures n == NextSequence(Placements(packets))
    {
      var todo := packets.Keys;
      var best := 0;
      while todo != {}
        invariant todo <= packets.Keys
        invariant forall k :: k in packets && k !in todo ==> k <= best
        invariant best == 0 || best in packets
        decreases todo
      {
        var k :| k in todo;
        if k > best { best := k; }
        todo := todo - {k};
      }
      assert Placements(packets).Keys == packets.Keys;
      if packets.Keys != {} {
        if best == 0 {
          var k :| k in packets;
          assert k <= best;
        }
        LargestIs(packets.Keys, best);
      }
      n := best + 1;
    }

    /** Complete means the counter equals the size and the table is the single row [0, size). */
    method CoverageComplete(ghost env: Env) returns (complete: bool)
      requires Valid(env) && status == RECEIVING
      ensures complete <==> |Value().content| == meta.size
      ensures complete ==> part == FileOf(Value().content, meta.size)
    {
      ContentSize(part, ranges, meta.size);
      CompleteIffSingleRow(ranges, meta.size);
      complete := bytesReceived == meta.size && ranges == [Row(0, meta.size)];
      if complete {
        assert ranges[0].end <= |part|;
        forall x: nat | x < meta.size ensures x in Content(part, ranges) {
          assert ranges[0].start <= x < ranges[0].end;
        }
      }
    }

    method Close(status: Status, reason: Reason, product: Option<seq<byte>>, now: int)
      modifies this
      ensures Value() == Closed(old(Value()), status, reason, product, now)
      ensures part == [] && ranges == [] && packets == map[]
    {
      this.status, this.reason, this.product, updatedAt := status, reason, product, now;
      part, ranges, packets := [], [], map[];
      assert Placements(packets) == map[];
      assert Content(part, ranges) == map[];
    }

    method End(p: FilePacket, now: int, env: Env) returns (r: Result<(), Error>)
      requires Valid(env) && status == RECEIVING
      modifies this
      ensures Valid(env)
      ensures AcceptEnd(old(Value()), p, now, env).Ok? ==>
        r.Ok? && Value() == AcceptEnd(old(Value()), p, now, env).value
      ensures AcceptEnd(old(Value()), p, now, env).Err? ==>
        r == Err(AcceptEnd(old(Value()), p, now, env).error) && Value() == old(Value())
    {
      var next := NextSequenceIndex();
      if p.sequenceIndex != next || p.offset != meta.size || |p.payload| != 4 {
        return Err(InvalidEnd);
      }
      EndKeepsInv(Value(), p, now, env);
      var complete := CoverageComplete(env);
      if !complete {
        terminal := Some(Terminal(END, p.sequenceIndex, env.sha256(p.payload)));
        Close(INCOMPLETE, Gap, None, now);
        return Ok(());
      }
      var file := part;
      var integrity := CfdpChecksum.StreamIntegrity(
        CfdpChecksum.Reads(file, CfdpChecksum.IO_BUFFER_BYTES), Some(meta.size), env.sha256);
      var verdict := if integrity.Err? || integrity.value.size != meta.size then (CHECKSUM_FAILED, FileSizeMismatch)
        else if CfdpChecksum.BigEndian(p.payload) != integrity.value.checksum || integrity.value.checksum != meta.checksum
        then (CHECKSUM_FAILED, FileChecksumMismatch)
        else if integrity.value.digest != meta.sha then (CHECKSUM_FAILED, BundleShaMismatch)
        else if !env.verifyBundle(file) then (CHECKSUM_FAILED, ProductVerifyFailed)
        else (VERIFIED, NoReason);
      assert verdict == Verdict(meta, file, p.payload, env);
      terminal := Some(Terminal(END, p.sequenceIndex, env.sha256(p.payload)));
      Close(verdict.0, verdict.1, if verdict.0 == VERIFIED then Some(file) else None, now);
      r := Ok(());
    }

    method Cancel(p: FilePacket, now: int, env: Env) returns (r: Result<(), Error>)
      requires Valid(env) && status == RECEIVING
      modifies this
      ensures Valid(env)
      ensures AcceptCancel(old(Value()), p, now, env).Ok? ==>
        r.Ok? && Value() == AcceptCancel(old(Value()), p, now, env).value
      ensures AcceptCancel(old(Value()), p, now, env).Err? ==>
        r == Err(AcceptCancel(old(Value()), p, now, env).error) && Value() == old(Value())
    {
      var next := NextSequenceIndex();
      if p.sequenceIndex != next {
        return Err(InvalidCancel);
      }
      terminal := Some(Terminal(CANCEL, p.sequenceIndex, env.sha256(p.payload)));
      Close(CANCELED, RemoteCancel, None, now);
      r := Ok(());
    }
  }

  lemma StartedSizeIsPositive(payload: seq<byte>, env: Env)
    requires ReadStart(payload, env).Ok?
    ensures 0 < ReadStart(payload, env).value.size
  {
  }

  /** All epochs of one station, keyed by spacecraft, session and file epoch. */
  class FilePacketReassembler {
    const env: Env
    const timeout: int
    const clockInjected: bool
    var states: map<EpochKey, EpochState>
    var missingStart: set<EpochKey>

    ghost predicate Valid()
      reads `states, states.Values
    {
      && (forall k :: k in states ==> states[k].Valid(env))
      && (forall k, l :: k in states && l in states && k != l ==> states[k] != states[l])
      && StoreInv(Contents(), env)
    }

    ghost function Contents(): Store
      reads `states, states.Values
    {
      map k | k in states :: states[k].Value()
    }

    constructor (env: Env, timeout: int, clockInjected: bool)
      ensures Valid() && Contents() == map[] && this.env == env
    {
      this.env, this.timeout, this.clockInjected := env, timeout, clockInjected;
      states, missingStart := map[], {};
    }

    method Receive(p: FilePacket, key: EpochKey, now: int) returns (r: Result<(), Error>)
      requires Valid() && p.Valid()
      modifies this, states.Values
      ensures Valid()
      ensures ReceiveStep(old(Contents()), key, p, now, env).Ok? ==>
        r.Ok? && Contents() == ReceiveStep(old(Contents()), key, p, now, env).value
      ensures ReceiveStep(old(Contents()), key, p, now, env).Err? ==>
        r == Err(ReceiveStep(old(Contents()), key, p, now, env).error) && Contents() == old(Contents())
    {
      hide EpochInv, EpochState.Value, EpochState.Valid, StoreInv, Accept, StartStep;
      KeepsInv(p, key, now);
      if p.kind == START {
        r := Start(p, key, now);
      } else if key !in states {
        missingStart := missingStart + {key};
        r := Ok(());
      } else {
        r := ReceiveNext(p, key, now);
      }
    }

    lemma KeepsInv(p: FilePacket, key: EpochKey, now: int)
      requires Valid()
      ensures var next := ReceiveStep(Contents(), key, p, now, env);
        next.Ok? ==> StoreInv(next.value, env)
    {
      if ReceiveStep(Contents(), key, p, now, env).Ok? {
        ReceiveKeepsInv(Contents(), key, p, now, env);
      }
    }

    /** A packet other than START for a known epoch. */
    method ReceiveNext(p: FilePacket, key: EpochKey, now: int) returns (r: Result<(), Error>)
      requires Valid() && p.Valid() && p.kind != START && key in states
      requires ReceiveStep(Contents(), key, p, now, env).Ok? ==>
                 StoreInv(ReceiveStep(Contents(), key, p, now, env).value, env)
      modifies states.Values
      ensures Valid()
      ensures ReceiveStep(old(Contents()), key, p, now, env).Ok? ==>
        r.Ok? && Contents() == ReceiveStep(old(Contents()), key, p, now, env).value
      ensures ReceiveStep(old(Contents()), key, p, now, env).Err? ==>
        r == Err(ReceiveStep(old(Contents()), key, p, now, env).error) && Contents() == old(Contents())
    {
      hide EpochInv, EpochState.Value, EpochState.Valid, StoreInv, Accept;
      ghost var before := Contents();
      var state := states[key];
      r := Deliver(state, p, now);
      forall k | k in states ensures Contents()[k] == before[key := state.Value()][k] {
        if k != key {
          assert states[k] != state;
        }
      }
      assert Contents() == before[key := state.Value()];
      assert before[key := before[key]] == before;
    }

    method Deliver(state: EpochState, p: FilePacket, now: int) returns (r: Result<(), Error>)
      requires state.Valid(env) && p.Valid() && p.kind != START
      modifies state
      ensures state.Valid(env)
      ensures Accept(old(state.Value()), p, now, env).Ok? ==>
        r.Ok? && state.Value() == Accept(old(state.Value()), p, now, env).value
      ensures Accept(old(state.Value()), p, now, env).Err? ==>
        r == Err(Accept(old(state.Value()), p, now, env).error) && state.Value() == old(state.Value())
    {
      if state.status != RECEIVING {
        var same := state.terminal == Some(Terminal(p.kind, p.sequenceIndex, env.sha256(p.payload)));
        return if same then Ok(()) else Err(PacketConflict);
      }
      match p.kind
      case DATA => r := state.Data(p, now, env);
      case END => r := state.End(p, now, env);
      case CANCEL => r := state.Cancel(p, now, env);
    }

    method Start(p: FilePacket, key: EpochKey, now: int) returns (r: Result<(), Error>)
      requires Valid() && p.kind == START
      requires StartStep(Contents(), key, p, now, env).Ok? ==> StoreInv(StartStep(Contents(), key, p, now, env).value, env)
      modifies this
      ensures Valid()
      ensures StartStep(old(Contents()), key, p, now, env).Ok? ==>
        r.Ok? && Contents() == StartStep(old(Contents()), key, p, now, env).value
      ensures StartStep(old(Contents()), key, p, now, env).Err? ==>
        r == Err(StartStep(old(Contents()), key, p, now, env).error) && Contents() == old(Contents())
    {
      hide EpochInv, EpochState.Value, EpochState.Valid, StoreInv, ReadStart, NewEpoch, Busy;
      if p.sequenceIndex != 0 || p.offset != 0 {
        return Err(InvalidStart);
      }
      var parsed := ReadStart(p.payload, env);
      if parsed.Err? {
        return Err(parsed.error);
      }
      var meta := parsed.value;
      StartedSizeIsPositive(p.payload, env);
      if meta.product.instance != key.instance {
        return Err(TargetInstanceMismatch);
      }
      if key in states {
        states[key].MetaOfValue();
        assert Contents()[key].meta.payload == states[key].meta.payload;
        return if states[key].meta.payload == p.payload then Ok(()) else Err(StartConflict);
      }
      var busy := OtherIsReceiving(key.instance);
      if busy {
        return Err(TransferBusy);
      }
      if meta.size > env.maxBundleBytes {
        return Err(BundleTooLarge);
      }
      ghost var before := Contents();
      var state := new EpochState(meta, now, env);
      states := states[key := state];
      assert Contents() == before[key := state.Value()];
      r := Ok(());
    }

    /** Looks for a receiving epoch of the same spacecraft. */
    method OtherIsReceiving(instance: nat) returns (busy: bool)
      requires Valid()
      ensures busy <==> Busy(Contents(), instance)
    {
      var todo := states.Keys;
      while todo != {}
        invariant todo <= states.Keys
        invariant forall k :: k in states && k !in todo ==> !(k.instance == instance && states[k].status == RECEIVING)
        decreases todo
      {
        var k :| k in todo;
        if k.instance == instance && states[k].status == RECEIVING {
          assert Contents()[k].status == RECEIVING;
          return true;
        }
        todo := todo - {k};
      }
      busy := false;
    }

    /** Closes one epoch if it is stale. */
    method ExpireOne(state: EpochState, now: int) returns (stale: bool)
      requires state.Valid(env)
      modifies state
      ensures state.Valid(env)
      ensures stale == IsStale(old(state.Value()), now, timeout, clockInjected)
      ensures state.Value() == ExpireEpoch(old(state.Value()), now, timeout, clockInjected)
    {
      stale := state.status == RECEIVING && !(state.updatedAt == 0 && !clockInjected)
        && state.updatedAt + timeout <= now;
      if stale {
        state.Close(CANCELED, ReassemblyTimeout, None, now);
      }
    }

    /** Closes every stale epoch, one at a time. */
    method Reconcile(now: int) returns (expired: set<EpochKey>)
      requires Valid()
      modifies states.Values
      ensures Valid()
      ensures Contents() == ExpireStep(old(Contents()), now, timeout, clockInjected)
      ensures forall k :: k in expired <==>
                k in old(Contents()) && IsStale(old(Contents())[k], now, timeout, clockInjected)
    {
      hide EpochInv, EpochState.Valid, EpochState.Value, StoreInv, IsStale, ExpireEpoch;
      ghost var before := Contents();
      assert StoreInv(ExpireStep(before, now, timeout, clockInjected), env) by {
        StationStepKeepsInv(before, Expire(now, timeout), clockInjected, env);
      }
      expired := {};
      var todo := states.Keys;
      while todo != {}
        invariant todo <= states.Keys && before.Keys == states.Keys
        invariant forall k :: k in states ==> states[k].Valid(env)
        invariant forall k :: k in todo ==> states[k].Value() == before[k]
        invariant forall k :: k in states && k !in todo ==>
                    states[k].Value() == ExpireEpoch(before[k], now, timeout, clockInjected)
        invariant forall k :: k in expired <==> k in before && k !in todo && IsStale(before[k], now, timeout, clockInjected)
        decreases todo
      {
        var k :| k in todo;
        var stale := ExpireOne(states[k], now);
        if stale {
          expired := expired + {k};
        }
        todo := todo - {k};
      }
      assert Contents() == ExpireStep(before, now, timeout, clockInjected);
    }
  }

  lemma EndsStayInside(ranges: Ranges, merged: Ranges, length: nat, offset: nat, end: nat, bound: nat)
    requires WellFormed(merged)
    requires forall i :: 0 <= i < |ranges| ==> ranges[i].end <= length
    requires forall x: nat :: Covers(merged, x) <==> Covers(ranges, x) || offset <= x < end
    requires length <= bound && end <= bound
    ensures forall i :: 0 <= i < |merged| ==> merged[i].end <= bound
  {
    forall i | 0 <= i < |merged| ensures merged[i].end <= bound {
      var last := merged[i].end - 1;
      assert merged[i].start <= last < merged[i].end;
      assert Covers(merged, last);
    }
  }
}
