/** The packets that carry one bundle, and what a list of completed packets may look like. */
module SendPlan {
  import opened Bytes
  import opened FilePackets
  import CfdpChecksum

  const CHUNK: nat := MAX_FILE_DATA_PER_FRAME

  /** The text MISSION_CANCEL. */
  const CANCEL_PAYLOAD: seq<byte> := [77, 73, 83, 83, 73, 79, 78, 95, 67, 65, 78, 67, 69, 76]

  datatype Source = Source(bundle: seq<byte>, startPayload: seq<byte>)

  function ChunkCount(size: nat): nat {
    (size + CHUNK - 1) / CHUNK
  }

  /** How many bytes the first k chunks hold. */
  function Boundary(size: nat, k: nat): (b: nat)
    ensures b <= size
  {
    if k * CHUNK < size then k * CHUNK else size
  }

  lemma LastChunkEnds(size: nat, k: nat)
    ensures k < ChunkCount(size) <==> Boundary(size, k) < size
    ensures k < ChunkCount(size) ==> Boundary(size, k) == k * CHUNK
    ensures k < ChunkCount(size) ==> Boundary(size, k) < Boundary(size, k + 1) <= Boundary(size, k) + CHUNK
    ensures Boundary(size, ChunkCount(size)) == size
  {
  }

  /** Packet i of a full transfer: START, the chunks in order, END. */
  function Planned(src: Source, i: nat): FilePacket {
    var size := |src.bundle|;
    if i == 0 then FilePacket(START, 0, 0, src.startPayload)
    else if i <= ChunkCount(size) then
      FilePacket(DATA, i, Boundary(size, i - 1),
                 if Boundary(size, i - 1) <= Boundary(size, i) then src.bundle[Boundary(size, i - 1)..Boundary(size, i)] else [])
    else FilePacket(END, i, size, U32Bytes(CfdpChecksum.Checksum(src.bundle, 0)))
  }

  function PlanSize(src: Source): nat {
    ChunkCount(|src.bundle|) + 2
  }

  function CancelAt(src: Source, i: nat): FilePacket
    requires 0 < i
  {
    FilePacket(CANCEL, i, Boundary(|src.bundle|, i - 1), CANCEL_PAYLOAD)
  }

  /** The packets are the first ones of the plan. */
  predicate IsPlanPrefix(src: Source, sent: seq<FilePacket>) {
    |sent| <= PlanSize(src) && forall i :: 0 <= i < |sent| ==> sent[i] == Planned(src, i)
  }

  /** The packets are the whole plan. */
  predicate IsWholePlan(src: Source, sent: seq<FilePacket>) {
    |sent| == PlanSize(src) && IsPlanPrefix(src, sent)
  }

  /** START and some but not all chunks, then CANCEL. */
  predicate IsCanceled(src: Source, sent: seq<FilePacket>) {
    && 2 <= |sent| <= PlanSize(src) - 1
    && IsPlanPrefix(src, sent[..|sent| - 1])
    && sent[|sent| - 1] == CancelAt(src, |sent| - 1)
  }

  /** What the completed packets of one attempt may be. */
  predicate OnWire(src: Source, sent: seq<FilePacket>) {
    IsPlanPrefix(src, sent) || IsCanceled(src, sent)
  }

  /** The DATA payloads in order. */
  function DataOf(sent: seq<FilePacket>): seq<byte> {
    if sent == [] then []
    else DataOf(sent[..|sent| - 1]) + (if sent[|sent| - 1].kind == DATA then sent[|sent| - 1].payload else [])
  }

  lemma {:induction false} PrefixCarries(src: Source, sent: seq<FilePacket>)
    requires IsPlanPrefix(src, sent) && 0 < |sent|
    ensures DataOf(sent) == src.bundle[..Boundary(|src.bundle|, |sent| - 1)]
  {
    var size := |src.bundle|;
    var init := sent[..|sent| - 1];
    if |sent| == 1 {
      assert init == [];
      assert sent[0] == Planned(src, 0);
    } else {
      PrefixCarries(src, init);
      var i := |sent| - 1;
      assert sent[i] == Planned(src, i);
      LastChunkEnds(size, i - 1);
      if i <= ChunkCount(size) {
        assert src.bundle[..Boundary(size, i - 1)] + src.bundle[Boundary(size, i - 1)..Boundary(size, i)]
            == src.bundle[..Boundary(size, i)];
      } else {
        assert Boundary(size, i) == size == Boundary(size, i - 1);
      }
    }
  }

  /** A finished plan has carried the whole bundle. */
  lemma WholePlanCarriesBundle(src: Source, sent: seq<FilePacket>)
    requires IsWholePlan(src, sent)
    ensures DataOf(sent) == src.bundle
    ensures sent[0].kind == START && sent[|sent| - 1].kind == END
    ensures forall i :: 0 < i < |sent| - 1 ==> sent[i].kind == DATA
  {
    PrefixCarries(src, sent);
    LastChunkEnds(|src.bundle|, ChunkCount(|src.bundle|));
    assert sent[0] == Planned(src, 0) && sent[|sent| - 1] == Planned(src, |sent| - 1);
    assert |sent| - 1 == ChunkCount(|src.bundle|) + 1;
    var size := |src.bundle|;
    assert Boundary(size, ChunkCount(size) + 1) == size;
  }

  /** Every planned packet passes the packet constructor's checks. */
  lemma PlannedIsValid(src: Source, i: nat)
    requires |src.bundle| <= U32_MAX && |src.startPayload| <= 0xFFFF && i < PlanSize(src)
    ensures Planned(src, i).Valid()
  {
    if 0 < i <= ChunkCount(|src.bundle|) {
      LastChunkEnds(|src.bundle|, i - 1);
    }
  }
}
