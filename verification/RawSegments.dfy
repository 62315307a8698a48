/**
 The append-only frame log: 16-byte headers with magic, version, length and CRC in front of each
 payload. A crash can leave a torn record at the end; scanning stops there and repair cuts it off.
 */
module RawSegments {
  import opened Bytes
  import opened FilePackets

  const HEADER_BYTES: nat := 16

  /** The letters GDSR. */
  const MAGIC: seq<byte> := [71, 68, 83, 82]

  const VERSION: byte := 1

  /** Checksum and hash stand for zlib.crc32 and SHA-256. */
  datatype Codec = Codec(crc: seq<byte> -> u32, sha256: seq<byte> -> int, maxRecord: nat)

  predicate Writable(payload: seq<byte>, c: Codec) {
    payload != [] && |payload| <= c.maxRecord && |payload| <= U32_MAX
  }

  function Encoded(payload: seq<byte>, c: Codec): (e: seq<byte>)
    requires |payload| <= U32_MAX
    ensures |e| == HEADER_BYTES + |payload|
  {
    MAGIC + [VERSION, 0, 0, 0] + U32Bytes(|payload|) + U32Bytes(c.crc(payload)) + payload
  }

  /** The payload of a complete record at an offset; the three padding bytes are not looked at. */
  function ParseAt(file: seq<byte>, offset: nat, c: Codec): Option<seq<byte>> {
    if offset + HEADER_BYTES > |file| then None
    else
      var h := file[offset..offset + HEADER_BYTES];
      var n := U32Value(h[8..12]);
      if h[..4] != MAGIC || h[4] != VERSION || n == 0 || n > c.maxRecord then None
      else if offset + HEADER_BYTES + n > |file| then None
      else
        var payload := file[offset + HEADER_BYTES..offset + HEADER_BYTES + n];
        if c.crc(payload) != U32Value(h[12..16]) then None else Some(payload)
  }

  datatype RawRecord = RawRecord(offset: nat, length: nat, payloadLength: nat, sha: int)

  datatype Scanned = Scanned(records: seq<RawRecord>, good: nat)

  function RecordAt(offset: nat, payload: seq<byte>, c: Codec): RawRecord {
    RawRecord(offset, HEADER_BYTES + |payload|, |payload|, c.sha256(payload))
  }

  /** Complete records from an offset on, and the boundary after the last of them. */
  function ScanFrom(file: seq<byte>, offset: nat, c: Codec): (s: Scanned)
    ensures s.good >= offset
    decreases |file| - offset
  {
    match ParseAt(file, offset, c)
    case None => Scanned([], offset)
    case Some(payload) =>
      var rest := ScanFrom(file, offset + HEADER_BYTES + |payload|, c);
      Scanned([RecordAt(offset, payload, c)] + rest.records, rest.good)
  }

  function EncodedAll(ps: seq<seq<byte>>, c: Codec): seq<byte>
    requires forall p :: p in ps ==> Writable(p, c)
  {
    if ps == [] then []
    else
      assert Writable(ps[0], c);
      Encoded(ps[0], c) + EncodedAll(ps[1..], c)
  }

  /** The references of records written one after the other from an offset on. */
  function RecordsOf(ps: seq<seq<byte>>, offset: nat, c: Codec): seq<RawRecord> {
    if ps == [] then [] else [RecordAt(offset, ps[0], c)] + RecordsOf(ps[1..], offset + HEADER_BYTES + |ps[0]|, c)
  }

  /** A proper prefix of an encoded record: what a crash can leave behind. */
  predicate Torn(tail: seq<byte>, c: Codec, payload: seq<byte>)
    requires |payload| <= U32_MAX
  {
    |tail| < |Encoded(payload, c)| && tail == Encoded(payload, c)[..|tail|]
  }

  lemma HeaderFields(payload: seq<byte>, c: Codec)
    requires |payload| <= U32_MAX
    ensures var e := Encoded(payload, c);
      && e[..4] == MAGIC && e[4] == VERSION && U32Value(e[8..12]) == |payload| && U32Value(e[12..16]) == c.crc(payload)
      && e[16..] == payload
  {
    var e := Encoded(payload, c);
    assert e[8..12] == U32Bytes(|payload|) && e[12..16] == U32Bytes(c.crc(payload));
    U32RoundTrip(|payload|, e[8..12]);
    U32RoundTrip(c.crc(payload), e[12..16]);
  }

  /** A written record parses back, whatever stands before and after it. */
  lemma WrittenParses(before: seq<byte>, payload: seq<byte>, after: seq<byte>, c: Codec)
    requires Writable(payload, c)
    ensures ParseAt(before + Encoded(payload, c) + after, |before|, c) == Some(payload)
  {
    var e := Encoded(payload, c);
    var file := before + e + after;
    HeaderFields(payload, c);
    var h := file[|before|..|before| + HEADER_BYTES];
    hide Encoded, U32Value, U32Bytes;
    assert h == e[..HEADER_BYTES];
    assert h[..4] == e[..4] && h[8..12] == e[8..12] && h[12..16] == e[12..16];
    assert file[|before| + HEADER_BYTES..|before| + HEADER_BYTES + |payload|] == e[16..];
  }

  /**
   The bytes at an offset parse to a payload exactly when the payload may be written and they are
   its encoding, but for the three padding bytes.
   */
  lemma ParsedIff(file: seq<byte>, offset: nat, payload: seq<byte>, c: Codec)
    ensures ParseAt(file, offset, c) == Some(payload) <==>
      && Writable(payload, c) && offset + HEADER_BYTES + |payload| <= |file|
      && forall i :: 0 <= i < HEADER_BYTES + |payload| && !(5 <= i < 8) ==> file[offset + i] == Encoded(payload, c)[i]
  {
    if offset + HEADER_BYTES <= |file| {
      var h := file[offset..offset + HEADER_BYTES];
      U32Bijection(h[8..12]);
      U32Bijection(h[12..16]);
      if ParseAt(file, offset, c) == Some(payload) {
        ParsedMatches(file, offset, payload, c);
      } else if Writable(payload, c) && offset + HEADER_BYTES + |payload| <= |file|
                && forall i :: 0 <= i < HEADER_BYTES + |payload| && !(5 <= i < 8) ==> file[offset + i] == Encoded(payload, c)[i] {
        MatchedParses(file, offset, payload, c);
      }
    }
  }

  lemma U32Bijection(bs: seq<byte>)
    requires |bs| == 4
    ensures U32Value(bs) <= U32_MAX && U32Bytes(U32Value(bs)) == bs
  {
    U32RoundTrip(U32Value(bs), bs);
  }

  lemma ParsedMatches(file: seq<byte>, offset: nat, payload: seq<byte>, c: Codec)
    requires ParseAt(file, offset, c) == Some(payload)
    ensures Writable(payload, c) && offset + HEADER_BYTES + |payload| <= |file|
    ensures forall i :: 0 <= i < HEADER_BYTES + |payload| && !(5 <= i < 8) ==> file[offset + i] == Encoded(payload, c)[i]
  {
    var h := file[offset..offset + HEADER_BYTES];
    U32Bijection(h[8..12]);
    U32Bijection(h[12..16]);
    var e := Encoded(payload, c);
    assert |payload| == U32Value(h[8..12]);
    HeaderFields(payload, c);
    EncodedParts(payload, c);
    hide Encoded, U32Value, U32Bytes;
    var bytes := file[offset..offset + HEADER_BYTES + |payload|];
    Prefix(file, offset, HEADER_BYTES + |payload|, HEADER_BYTES);
    HeaderSlices(bytes);
    assert bytes[16..] == payload;
    SameParts(file[offset..offset + HEADER_BYTES + |payload|], e);
  }

  lemma EncodedParts(payload: seq<byte>, c: Codec)
    requires |payload| <= U32_MAX
    ensures Encoded(payload, c)[8..12] == U32Bytes(|payload|) && Encoded(payload, c)[12..16] == U32Bytes(c.crc(payload))
  {
  }

  lemma SameSlice(a: seq<byte>, b: seq<byte>, from: nat, to: nat)
    requires |a| == |b| && from <= to <= |a| && (to <= 5 || 8 <= from)
    requires forall i :: 0 <= i < |a| && !(5 <= i < 8) ==> a[i] == b[i]
    ensures a[from..to] == b[from..to]
  {
  }

  lemma Prefix(file: seq<byte>, offset: nat, n: nat, m: nat)
    requires offset + n <= |file| && m <= n
    ensures file[offset..offset + n][..m] == file[offset..offset + m]
  {
  }

  lemma HeaderSlices(bytes: seq<byte>)
    requires |bytes| >= HEADER_BYTES
    ensures var h := bytes[..HEADER_BYTES];
      h[..4] == bytes[..4] == bytes[0..4] && h[4] == bytes[4] && h[8..12] == bytes[8..12] && h[12..16] == bytes[12..16]
  {
  }

  lemma SameParts(a: seq<byte>, b: seq<byte>)
    requires |a| == |b| >= HEADER_BYTES
    requires a[..4] == b[..4] && a[4] == b[4] && a[8..12] == b[8..12] && a[12..16] == b[12..16] && a[16..] == b[16..]
    ensures forall i :: 0 <= i < |a| && !(5 <= i < 8) ==> a[i] == b[i]
  {
    forall i | 0 <= i < |a| && !(5 <= i < 8) ensures a[i] == b[i] {
      if i < 4 {
        assert a[..4][i] == b[..4][i];
      } else if 8 <= i < 12 {
        assert a[8..12][i - 8] == b[8..12][i - 8];
      } else if 12 <= i < 16 {
        assert a[12..16][i - 12] == b[12..16][i - 12];
      } else if 16 <= i {
        assert a[16..][i - 16] == b[16..][i - 16];
      }
    }
  }

  lemma MatchedParses(file: seq<byte>, offset: nat, payload: seq<byte>, c: Codec)
    requires Writable(payload, c) && offset + HEADER_BYTES + |payload| <= |file|
    requires forall i :: 0 <= i < HEADER_BYTES + |payload| && !(5 <= i < 8) ==> file[offset + i] == Encoded(payload, c)[i]
    ensures ParseAt(file, offset, c) == Some(payload)
  {
    HeaderFields(payload, c);
    var e := Encoded(payload, c);
    var h := file[offset..offset + HEADER_BYTES];
    hide Encoded, U32Value, U32Bytes;
    var bytes := file[offset..offset + HEADER_BYTES + |payload|];
    assert forall i :: 0 <= i < HEADER_BYTES + |payload| && !(5 <= i < 8) ==> bytes[i] == e[i];
    SameSlice(bytes, e, 0, 4);
    SameSlice(bytes, e, 8, 12);
    SameSlice(bytes, e, 12, 16);
    SameSlice(bytes, e, 16, |e|);
    Prefix(file, offset, HEADER_BYTES + |payload|, HEADER_BYTES);
    HeaderSlices(bytes);
    assert e[..4] == e[0..4] && e[16..] == e[16..|e|];
    assert bytes[16..|e|] == file[offset + HEADER_BYTES..offset + HEADER_BYTES + |payload|];
    assert file[offset + HEADER_BYTES..offset + HEADER_BYTES + |payload|] == e[16..];
  }

  /** A torn record never parses: its header or its payload is short. */
  lemma TornDoesNotParse(before: seq<byte>, tail: seq<byte>, payload: seq<byte>, c: Codec)
    requires |payload| <= U32_MAX && Torn(tail, c, payload)
    ensures ParseAt(before + tail, |before|, c) == None
  {
    if |tail| >= HEADER_BYTES {
      var e := Encoded(payload, c);
      HeaderFields(payload, c);
      hide Encoded, U32Value, U32Bytes;
      assert (before + tail)[|before|..|before| + HEADER_BYTES] == e[..HEADER_BYTES];
      assert e[..HEADER_BYTES][8..12] == e[8..12];
    }
  }

  /**
   Scanning any records followed by a torn one finds exactly the complete records and stops at
   their boundary.
   */
  lemma {:induction false} ScanFindsComplete(before: seq<byte>, ps: seq<seq<byte>>, tail: seq<byte>, torn: seq<byte>, c: Codec)
    requires forall p :: p in ps ==> Writable(p, c)
    requires |torn| <= U32_MAX && Torn(tail, c, torn)
    ensures ScanFrom(before + EncodedAll(ps, c) + tail, |before|, c)
         == Scanned(RecordsOf(ps, |before|, c), |before| + |EncodedAll(ps, c)|)
    decreases |ps|
  {
    hide ParseAt, Encoded, Torn;
    if ps == [] {
      assert before + EncodedAll(ps, c) + tail == before + tail;
      TornDoesNotParse(before, tail, torn, c);
    } else {
      assert Writable(ps[0], c);
      var e, rest := Encoded(ps[0], c), EncodedAll(ps[1..], c);
      var file := before + EncodedAll(ps, c) + tail;
      assert forall p :: p in ps[1..] ==> p in ps;
      assert file == before + e + (rest + tail);
      WrittenParses(before, ps[0], rest + tail, c);
      assert file == (before + e) + rest + tail;
      ScanFindsComplete(before + e, ps[1..], tail, torn, c);
    }
  }

  lemma {:induction false} EncodedAllSnoc(ps: seq<seq<byte>>, q: seq<byte>, c: Codec)
    requires (forall p :: p in ps ==> Writable(p, c)) && Writable(q, c)
    ensures EncodedAll(ps + [q], c) == EncodedAll(ps, c) + Encoded(q, c)
  {
    hide Encoded;
    if ps == [] {
      assert ps + [q] == [q] && [q][1..] == [];
    } else {
      assert Writable(ps[0], c);
      assert (ps + [q])[1..] == ps[1..] + [q];
      EncodedAllSnoc(ps[1..], q, c);
      assert Encoded(ps[0], c) + (EncodedAll(ps[1..], c) + Encoded(q, c)) == (Encoded(ps[0], c) + EncodedAll(ps[1..], c)) + Encoded(q, c);
    }
  }

  /** Each reference found by a scan leads to the bytes it was made from. */
  lemma {:induction false} RecordLeadsToPayload(before: seq<byte>, ps: seq<seq<byte>>, tail: seq<byte>, c: Codec, i: nat)
    requires (forall p :: p in ps ==> Writable(p, c)) && i < |ps|
    ensures |RecordsOf(ps, |before|, c)| == |ps|
    ensures var r := RecordsOf(ps, |before|, c)[i];
      && r.payloadLength == |ps[i]| && r.sha == c.sha256(ps[i])
      && ParseAt(before + EncodedAll(ps, c) + tail, r.offset, c) == Some(ps[i])
    decreases |ps|
  {
    hide ParseAt, Encoded;
    assert Writable(ps[0], c);
    var e, rest := Encoded(ps[0], c), EncodedAll(ps[1..], c);
    var file := before + EncodedAll(ps, c) + tail;
    assert forall p :: p in ps[1..] ==> p in ps;
    if i == 0 {
      assert file == before + e + (rest + tail);
      WrittenParses(before, ps[0], rest + tail, c);
      RecordsLength(ps, |before|, c);
    } else {
      assert file == (before + e) + rest + tail;
      RecordLeadsToPayload(before + e, ps[1..], tail, c, i - 1);
    }
  }

  lemma {:induction false} RecordsLength(ps: seq<seq<byte>>, offset: nat, c: Codec)
    ensures |RecordsOf(ps, offset, c)| == |ps|
    decreases |ps|
  {
    if ps != [] {
      RecordsLength(ps[1..], offset + HEADER_BYTES + |ps[0]|, c);
    }
  }

  // ---------------------------------------------------------------- the store

  datatype SegmentError = EmptyPayload | TooLarge | Truncated | HeaderMismatch | CrcFailed | HashFailed

  /** The bytes a reference points to. */
  function PayloadAt(file: seq<byte>, record: RawRecord): seq<byte>
    requires record.offset + HEADER_BYTES + record.payloadLength <= |file|
  {
    file[record.offset + HEADER_BYTES..record.offset + HEADER_BYTES + record.payloadLength]
  }

  /** Header, length, CRC and hash of the bytes a reference points to are all as they should be. */
  predicate Intact(file: seq<byte>, record: RawRecord, c: Codec) {
    && record.offset + HEADER_BYTES + record.payloadLength <= |file|
    && var h := file[record.offset..record.offset + HEADER_BYTES];
    && h[..4] == MAGIC && h[4] == VERSION && U32Value(h[8..12]) == record.payloadLength
    && U32Value(h[12..16]) == c.crc(PayloadAt(file, record))
    && record.sha == c.sha256(PayloadAt(file, record))
  }

  class RawSegmentStore {
    const codec: Codec
    var file: seq<byte>

    constructor (codec: Codec)
      ensures file == [] && this.codec == codec
    {
      this.codec, file := codec, [];
    }

    /** Reads record after record until one is not complete. */
    method ScanAll() returns (s: Scanned)
      ensures s == ScanFrom(file, 0, codec)
    {
      hide ParseAt, ScanFrom, Reached;
      var records, offset := [], 0;
      NothingScanned(file, codec);
      while ParseAt(file, offset, codec).Some?
        invariant Reached(file, records, offset, codec)
        decreases |file| - offset
      {
        var payload := ParseAt(file, offset, codec).value;
        ParsedIsInside(file, offset, codec);
        OneScanned(file, records, offset, payload, codec);
        records := records + [RecordAt(offset, payload, codec)];
        offset := offset + HEADER_BYTES + |payload|;
      }
      AllScanned(file, records, offset, codec);
      s := Scanned(records, offset);
    }

    /** Cuts the file after the last complete record. */
    method Repair() returns (records: seq<RawRecord>)
      modifies this
      ensures records == ScanFrom(old(file), 0, codec).records
      ensures ScanFrom(old(file), 0, codec).good <= |old(file)|
      ensures file == old(file)[..ScanFrom(old(file), 0, codec).good]
    {
      var s := ScanAll();
      GoodIsInside(file, 0, codec);
      if s.good != |file| {
        file := file[..s.good];
      }
      records := s.records;
    }

    /** Repairs, then writes one record at the end. */
    method Append(payload: seq<byte>) returns (r: Result<RawRecord, SegmentError>)
      requires |payload| <= U32_MAX
      modifies this
      ensures r.Err? <==> payload == [] || |payload| > codec.maxRecord
      ensures r.Err? ==> file == old(file)
      ensures ScanFrom(old(file), 0, codec).good <= |old(file)|
      ensures r.Ok? ==>
        var kept := old(file)[..ScanFrom(old(file), 0, codec).good];
        file == kept + Encoded(payload, codec) && r.value == RecordAt(|kept|, payload, codec)
    {
      GoodIsInside(file, 0, codec);
      if payload == [] {
        return Err(EmptyPayload);
      }
      if |payload| > codec.maxRecord {
        return Err(TooLarge);
      }
      var kept := Repair();
      var offset := |file|;
      file := file + Encoded(payload, codec);
      r := Ok(RawRecord(offset, HEADER_BYTES + |payload|, |payload|, codec.sha256(payload)));
    }

    /** Checks the header against the reference, then CRC and hash, before handing out the payload. */
    method Read(record: RawRecord) returns (r: Result<seq<byte>, SegmentError>)
      ensures r.Ok? <==> Intact(file, record, codec)
      ensures r.Ok? ==> r.value == PayloadAt(file, record)
      ensures ParseAt(file, record.offset, codec).Some? && record.payloadLength == |ParseAt(file, record.offset, codec).value|
              && record.sha == codec.sha256(ParseAt(file, record.offset, codec).value)
              ==> r == Ok(ParseAt(file, record.offset, codec).value)
    {
      if record.offset + HEADER_BYTES > |file| {
        return Err(Truncated);
      }
      var h := file[record.offset..record.offset + HEADER_BYTES];
      var n := U32Value(h[8..12]);
      if h[..4] != MAGIC || h[4] != VERSION || n != record.payloadLength {
        return Err(HeaderMismatch);
      }
      if record.offset + HEADER_BYTES + n > |file| {
        return Err(CrcFailed);
      }
      var payload := file[record.offset + HEADER_BYTES..record.offset + HEADER_BYTES + n];
      if codec.crc(payload) != U32Value(h[12..16]) {
        return Err(CrcFailed);
      }
      r := if codec.sha256(payload) != record.sha then Err(HashFailed) else Ok(payload);
    }
  }

  /** The records so far and those still ahead make up the scan. */
  ghost predicate Reached(file: seq<byte>, records: seq<RawRecord>, offset: nat, c: Codec) {
    ScanFrom(file, 0, c) == Scanned(records + ScanFrom(file, offset, c).records, ScanFrom(file, offset, c).good)
  }

  lemma NothingScanned(file: seq<byte>, c: Codec)
    ensures Reached(file, [], 0, c)
  {
    hide ScanFrom;
    assert [] + ScanFrom(file, 0, c).records == ScanFrom(file, 0, c).records;
  }

  lemma OneScanned(file: seq<byte>, records: seq<RawRecord>, offset: nat, payload: seq<byte>, c: Codec)
    requires Reached(file, records, offset, c) && ParseAt(file, offset, c) == Some(payload)
    ensures Reached(file, records + [RecordAt(offset, payload, c)], offset + HEADER_BYTES + |payload|, c)
  {
    hide ParseAt;
    var rest := ScanFrom(file, offset + HEADER_BYTES + |payload|, c);
    assert records + ([RecordAt(offset, payload, c)] + rest.records) == (records + [RecordAt(offset, payload, c)]) + rest.records;
  }

  lemma AllScanned(file: seq<byte>, records: seq<RawRecord>, offset: nat, c: Codec)
    requires Reached(file, records, offset, c) && ParseAt(file, offset, c).None?
    ensures ScanFrom(file, 0, c) == Scanned(records, offset)
  {
    hide ParseAt;
    assert records + [] == records;
  }

  lemma ParsedIsInside(file: seq<byte>, offset: nat, c: Codec)
    requires ParseAt(file, offset, c).Some?
    ensures offset + HEADER_BYTES + |ParseAt(file, offset, c).value| <= |file|
  {
  }

  lemma {:induction false} GoodIsInside(file: seq<byte>, offset: nat, c: Codec)
    requires offset <= |file|
    ensures ScanFrom(file, offset, c).good <= |file|
    decreases |file| - offset
  {
    if ParseAt(file, offset, c).Some? {
      ParsedIsInside(file, offset, c);
      hide ParseAt;
      GoodIsInside(file, offset + HEADER_BYTES + |ParseAt(file, offset, c).value|, c);
    }
  }

  /**
   After a crash in the middle of any append, the next append leaves the file exactly as if the
   torn record had never been begun.
   */
  lemma AppendAfterCrash(ps: seq<seq<byte>>, tail: seq<byte>, torn: seq<byte>, q: seq<byte>, c: Codec)
    requires (forall p :: p in ps ==> Writable(p, c)) && Writable(q, c)
    requires |torn| <= U32_MAX && Torn(tail, c, torn)
    ensures var file := EncodedAll(ps, c) + tail;
      var good := ScanFrom(file, 0, c).good;
      && good <= |file| && file[..good] + Encoded(q, c) == EncodedAll(ps + [q], c)
      && ScanFrom(file, 0, c).records == RecordsOf(ps, 0, c)
      && ScanFrom(EncodedAll(ps + [q], c), 0, c).records == RecordsOf(ps + [q], 0, c)
  {
    var file := EncodedAll(ps, c) + tail;
    assert [] + EncodedAll(ps, c) + tail == file;
    ScanFindsComplete([], ps, tail, torn, c);
    assert file[..|EncodedAll(ps, c)|] == EncodedAll(ps, c);
    EncodedAllSnoc(ps, q, c);
    assert Torn([], c, q);
    assert [] + EncodedAll(ps + [q], c) + [] == EncodedAll(ps + [q], c);
    ScanFindsComplete([], ps + [q], [], q, c);
  }
}
