/**
 One file transfer end to end: the packets a completed sender attempt has put on the wire,
 delivered START first, DATA in any order with any duplication and any loss, END last.
 */
module Transfer {
  import opened Bytes
  import opened FilePackets
  import opened SendPlan
  import opened Reassembly
  import IntervalIndex
  import CfdpChecksum
  import Coordinator

  /** The number of the chunk that holds file position x. */
  function ChunkAt(x: nat): nat {
    x / CHUNK + 1
  }

  predicate Holds(got: set<nat>, x: nat) {
    ChunkAt(x) in got
  }

  /** The bytes of the chunks received. */
  ghost function Delivered(bundle: seq<byte>, got: set<nat>): map<nat, byte> {
    map x: nat | x < |bundle| && Holds(got, x) :: bundle[x]
  }

  ghost function Places(src: Source, got: set<nat>): map<nat, Placement> {
    map i | i in got :: PlaceOf(Planned(src, i))
  }

  predicate ChunkIds(src: Source, got: set<nat>) {
    forall i :: i in got ==> 1 <= i <= ChunkCount(|src.bundle|)
  }

  /** The epoch is exactly what receiving this set of chunks leaves, however they arrived. */
  ghost predicate HasReceived(e: Epoch, meta: Meta, src: Source, got: set<nat>)
    requires ChunkIds(src, got)
  {
    && e.meta == meta && e.status == RECEIVING && e.reason == NoReason && e.terminal.None? && e.product.None?
    && e.content == Delivered(src.bundle, got)
    && e.packets == Places(src, got)
    && e.received == |e.content|
  }

  lemma ChunkBytes(src: Source, i: nat, x: nat)
    requires 1 <= i <= ChunkCount(|src.bundle|) && x < |src.bundle|
    ensures var p := Planned(src, i);
      && (ChunkAt(x) == i <==> p.offset <= x < p.offset + |p.payload|)
      && (ChunkAt(x) == i ==> p.payload[x - p.offset] == src.bundle[x])
  {
    LastChunkEnds(|src.bundle|, i - 1);
  }

  lemma PlannedPlace(src: Source, i: nat)
    requires 1 <= i <= ChunkCount(|src.bundle|)
    ensures var p := Planned(src, i);
      p.kind == DATA && p.sequenceIndex == i && p.payload != [] && p.offset + |p.payload| <= |src.bundle|
  {
    LastChunkEnds(|src.bundle|, i - 1);
  }

  lemma DeliveredGrows(src: Source, got: set<nat>, i: nat)
    requires ChunkIds(src, got) && 1 <= i <= ChunkCount(|src.bundle|)
    ensures var p := Planned(src, i);
      && Agrees(Delivered(src.bundle, got), p.offset, p.payload)
      && Delivered(src.bundle, got) + Segment(p.offset, p.payload) == Delivered(src.bundle, got + {i})
  {
    var p := Planned(src, i);
    PlannedPlace(src, i);
    forall x: nat | x < |src.bundle|
      ensures ChunkAt(x) == i <==> p.offset <= x < p.offset + |p.payload|
      ensures ChunkAt(x) == i ==> p.payload[x - p.offset] == src.bundle[x]
    {
      ChunkBytes(src, i, x);
    }
    hide Planned, ChunkAt;
    var left := Delivered(src.bundle, got) + Segment(p.offset, p.payload);
    var right := Delivered(src.bundle, got + {i});
    forall x ensures x in left <==> x in right {
      assert x in Segment(p.offset, p.payload) ==> Within(x, p.offset, |p.payload|);
    }
  }

  /** Delivering a chunk, new or repeated, leaves what receiving the larger set leaves. */
  lemma ChunkArrives(e: Epoch, meta: Meta, src: Source, got: set<nat>, i: nat, now: int)
    requires ChunkIds(src, got) && 1 <= i <= ChunkCount(|src.bundle|)
    requires HasReceived(e, meta, src, got) && meta.size == |src.bundle|
    ensures AcceptData(e, Planned(src, i), now).Ok?
    ensures HasReceived(AcceptData(e, Planned(src, i), now).value, meta, src, got + {i})
  {
    PlannedPlace(src, i);
    DeliveredGrows(src, got, i);
    PlacesGrow(src, got, i);
    hide Planned, Delivered, Segment, Agrees, Boundary, ChunkCount, Places;
    AcceptedChunk(e, Planned(src, i), now);
    hide AcceptData, PlaceOf;
    if i in got {
      assert got + {i} == got;
    }
  }

  lemma AcceptedChunk(e: Epoch, p: FilePacket, now: int)
    requires 1 <= p.sequenceIndex && p.payload != [] && p.offset + |p.payload| <= e.meta.size && Agrees(e.content, p.offset, p.payload)
    requires p.sequenceIndex in e.packets ==> e.packets[p.sequenceIndex] == PlaceOf(p)
    ensures AcceptData(e, p, now) ==
      Ok(if p.sequenceIndex in e.packets then e
         else e.(content := e.content + Segment(p.offset, p.payload), packets := e.packets[p.sequenceIndex := PlaceOf(p)],
                 received := |e.content + Segment(p.offset, p.payload)|, updatedAt := now))
  {
    hide Segment;
  }

  lemma PlacesGrow(src: Source, got: set<nat>, i: nat)
    ensures Places(src, got + {i}) == Places(src, got)[i := PlaceOf(Planned(src, i))]
    ensures Places(src, got).Keys == got
    ensures i in got ==> Places(src, got)[i] == PlaceOf(Planned(src, i))
  {
    hide Planned;
  }

  // ---------------------------------------------------------------- any order, any duplication, any loss

  predicate IsChunk(src: Source, p: FilePacket) {
    1 <= p.sequenceIndex <= ChunkCount(|src.bundle|) && p == Planned(src, p.sequenceIndex)
  }

  predicate AllChunks(src: Source, arrivals: seq<Arrival>) {
    forall a :: a in arrivals ==> IsChunk(src, a.packet) && a.packet.kind != START
  }

  /** Which chunks a list of arrivals contains. */
  function GotBy(arrivals: seq<Arrival>): set<nat> {
    set a | a in arrivals :: a.packet.sequenceIndex
  }

  lemma {:induction false} ArrivalsReceive(meta: Meta, src: Source, begun: int, arrivals: seq<Arrival>, env: Env)
    requires AllChunks(src, arrivals) && meta.size == |src.bundle|
    ensures ChunkIds(src, GotBy(arrivals))
    ensures HasReceived(Run(NewEpoch(meta, begun), arrivals, env), meta, src, GotBy(arrivals))
  {
    if arrivals == [] {
      assert GotBy(arrivals) == {};
      assert Delivered(src.bundle, {}) == map[] && Places(src, {}) == map[];
    } else {
      var init, last := arrivals[..|arrivals| - 1], arrivals[|arrivals| - 1];
      LastArrival(src, arrivals);
      hide HasReceived, Planned, ChunkCount, Accept, GotBy, Delivered, Places, IsChunk, NewEpoch, After;
      ArrivalsReceive(meta, src, begun, init, env);
      OneMoreArrival(Run(NewEpoch(meta, begun), init, env), meta, src, GotBy(init), last, env);
    }
  }

  lemma LastArrival(src: Source, arrivals: seq<Arrival>)
    requires arrivals != [] && AllChunks(src, arrivals)
    ensures var init, last := arrivals[..|arrivals| - 1], arrivals[|arrivals| - 1];
      && AllChunks(src, init) && IsChunk(src, last.packet) && last.packet.kind != START
      && GotBy(arrivals) == GotBy(init) + {last.packet.sequenceIndex}
      && (ChunkIds(src, GotBy(init)) ==> ChunkIds(src, GotBy(arrivals)))
  {
    assert arrivals == arrivals[..|arrivals| - 1] + [arrivals[|arrivals| - 1]];
    assert arrivals[|arrivals| - 1] in arrivals;
    hide Planned;
  }

  lemma OneMoreArrival(e: Epoch, meta: Meta, src: Source, got: set<nat>, arrival: Arrival, env: Env)
    requires ChunkIds(src, got) && HasReceived(e, meta, src, got) && meta.size == |src.bundle|
    requires IsChunk(src, arrival.packet) && arrival.packet.kind != START
    ensures HasReceived(After(e, arrival, env), meta, src, got + {arrival.packet.sequenceIndex})
  {
    PlannedPlace(src, arrival.packet.sequenceIndex);
    ChunkArrives(e, meta, src, got, arrival.packet.sequenceIndex, arrival.at);
    StillReceiving(e, meta, src, got);
    hide AcceptData, HasReceived, Planned, ChunkCount;
  }

  lemma StillReceiving(e: Epoch, meta: Meta, src: Source, got: set<nat>)
    requires ChunkIds(src, got) && HasReceived(e, meta, src, got)
    ensures e.status == RECEIVING && e.meta == meta
  {
  }

  predicate Complete(src: Source, got: set<nat>) {
    forall i :: 1 <= i <= ChunkCount(|src.bundle|) ==> i in got
  }

  /** Every byte is there exactly when every chunk is. */
  lemma FullIffComplete(src: Source, got: set<nat>)
    requires ChunkIds(src, got)
    ensures |Delivered(src.bundle, got)| == |src.bundle| <==> Complete(src, got)
    ensures Complete(src, got) ==> FileOf(Delivered(src.bundle, got), |src.bundle|) == src.bundle
  {
    var content, size := Delivered(src.bundle, got), |src.bundle|;
    IntervalIndex.FullSet(content.Keys, size);
    if Complete(src, got) {
      forall x: nat | x < size ensures x in content {
        ChunkInPlan(size, x);
      }
      AllBelow(content.Keys, size);
      assert FileOf(content, size) == src.bundle;
    } else {
      var i :| 1 <= i <= ChunkCount(size) && i !in got;
      LastChunkEnds(size, i - 1);
      ChunkBytes(src, i, Boundary(size, i - 1));
      assert Boundary(size, i - 1) !in content;
    }
  }

  lemma ChunkInPlan(size: nat, x: nat)
    requires x < size
    ensures 1 <= ChunkAt(x) <= ChunkCount(size)
  {
  }

  lemma {:induction false} AllBelow(s: set<nat>, n: nat)
    requires forall x: nat :: x in s <==> x < n
    ensures |s| == n
    decreases n
  {
    if n == 0 {
      assert s == {};
    } else {
      AllBelow(s - {n - 1}, n - 1);
    }
  }

  lemma BigEndianOfU32(v: nat)
    requires v <= U32_MAX
    ensures CfdpChecksum.BigEndian(U32Bytes(v)) == v
  {
    U32RoundTrip(v, U32Bytes(v));
  }

  /** What END decides once a set of chunks has been received. */
  lemma EndDecides(e: Epoch, meta: Meta, src: Source, got: set<nat>, now: int, env: Env)
    requires ChunkIds(src, got) && HasReceived(e, meta, src, got)
    requires 0 < meta.size == |src.bundle| && meta.checksum == CfdpChecksum.Checksum(src.bundle, 0)
    requires meta.sha == env.sha256(src.bundle)
    ensures var n := ChunkCount(|src.bundle|);
      var r := AcceptEnd(e, Planned(src, n + 1), now, env);
      && (n !in got ==> r == Err(InvalidEnd))
      && (n in got && !Complete(src, got) ==> r.Ok? && r.value.status == INCOMPLETE && r.value.product == None)
      && (Complete(src, got) && !env.verifyBundle(src.bundle) ==>
            r.Ok? && r.value.status == CHECKSUM_FAILED && r.value.reason == ProductVerifyFailed && r.value.product == None)
      && (Complete(src, got) && env.verifyBundle(src.bundle) ==>
            r.Ok? && r.value.status == VERIFIED && r.value.product == Some(src.bundle))
  {
    var n := ChunkCount(|src.bundle|);
    FullIffComplete(src, got);
    BigEndianOfU32(meta.checksum);
    LargestOfIds(src, got);
    PlacesGrow(src, got, n);
    hide Delivered, Places, FileOf, Boundary;
  }

  lemma LargestOfIds(src: Source, got: set<nat>)
    requires ChunkIds(src, got) && 0 < |src.bundle|
    ensures 1 <= ChunkCount(|src.bundle|)
    ensures Largest(got) == ChunkCount(|src.bundle|) <==> ChunkCount(|src.bundle|) in got
  {
    var n := ChunkCount(|src.bundle|);
    if n in got {
      LargestIs(got, n);
    }
  }

  // ---------------------------------------------------------------- sender to receiver

  /** The two ends agree on canonical JSON and on the hash. */
  ghost predicate Compatible(disk: Coordinator.Disk, env: Env) {
    && (forall f: StartFields :: env.parseStart(disk.encodeStart(f)) == Some(f))
    && (forall b: seq<byte> :: disk.sha256(b) == env.sha256(b))
  }

  function MetaOf(a: Coordinator.ActiveTransfer, src: Source): Meta
  {
    Meta(src.startPayload, a.transferId, a.product, a.size, a.checksum, a.sha)
  }

  /** The receiver reads from START what the sender put in. */
  lemma StartIsUnderstood(a: Coordinator.ActiveTransfer, h: Coordinator.History, disk: Coordinator.Disk, env: Env)
    requires Coordinator.Describes(a, h, disk) && Compatible(disk, env) && 0 < a.size
    ensures ReadStart(h.src.startPayload, env) == Ok(MetaOf(a, h.src))
  {
    assert env.parseStart(disk.encodeStart(Coordinator.Fields(a))) == Some(Coordinator.Fields(a));
  }

  /** The receiver takes START when the station is free and the bundle is small enough. */
  predicate Ready(store: Store, key: EpochKey, a: Coordinator.ActiveTransfer, env: Env) {
    key !in store && !Busy(store, key.instance) && a.product.instance == key.instance && a.size <= env.maxBundleBytes
  }

  predicate Arrived(arrivals: seq<Arrival>, p: FilePacket) {
    exists x :: x in arrivals && x.packet == p
  }

  predicate EveryChunkArrived(sent: seq<FilePacket>, arrivals: seq<Arrival>) {
    forall i :: 0 < i < |sent| - 1 ==> Arrived(arrivals, sent[i])
  }

  /** The epoch's verdict, told from which of the sent packets arrived before END. */
  predicate Outcome(sent: seq<FilePacket>, bundle: seq<byte>, arrivals: seq<Arrival>, e: Epoch, env: Env)
    requires 2 < |sent|
  {
    && (e.status == VERIFIED <==> EveryChunkArrived(sent, arrivals) && env.verifyBundle(bundle))
    && (e.status == VERIFIED ==> e.product == Some(bundle))
    && (e.status == RECEIVING <==> !Arrived(arrivals, sent[|sent| - 2]))
    && (e.status == INCOMPLETE <==> Arrived(arrivals, sent[|sent| - 2]) && !EveryChunkArrived(sent, arrivals))
  }

  /**
   End to end. The sender, after any calls whatever, reports SEND_COMPLETED. Its START opens an
   epoch; any of its DATA packets arrive, in any order and any number of times; its END arrives.
   The receiver ends VERIFIED exactly when every chunk arrived and the bundle passes inspection,
   and then it holds the sender's bundle byte for byte. With the last chunk missing END is
   refused and the epoch stays open; with another chunk missing it ends INCOMPLETE.
   */
  lemma EndToEnd(events: seq<Coordinator.Event>, disk: Coordinator.Disk, required: nat, env: Env,
                 store: Store, key: EpochKey, begun: int, arrivals: seq<Arrival>, ended: int)
    requires var c := Coordinator.Run(Coordinator.INITIAL, events, disk, required);
      && c.active.Some? && c.active.value.state == Coordinator.SEND_COMPLETED && 0 < c.active.value.size
      && Ready(store, key, c.active.value, env)
      && Compatible(disk, env)
      && (forall x :: x in arrivals ==> x.packet in c.history.sent && x.packet.kind == DATA)
    ensures var c := Coordinator.Run(Coordinator.INITIAL, events, disk, required);
      var sent, bundle := c.history.sent, c.history.src.bundle;
      && 2 < |sent| && sent[0].kind == START && sent[|sent| - 1].kind == END
      && ReceiveStep(store, key, sent[0], begun, env).Ok? && key in ReceiveStep(store, key, sent[0], begun, env).value
      && bundle == disk.contents(c.active.value.stamp)
      && Outcome(sent, bundle, arrivals,
                 After(Run(ReceiveStep(store, key, sent[0], begun, env).value[key], arrivals, env),
                       Arrival(sent[|sent| - 1], ended), env), env)
  {
    var c := Coordinator.Run(Coordinator.INITIAL, events, disk, required);
    Coordinator.RunIsSafe(events, disk, required);
    Coordinator.RunRemembers(Coordinator.INITIAL, events, disk, required);
    OneTransfer(c, disk, env, store, key, begun, arrivals, ended);
  }

  lemma OneTransfer(c: Coordinator.Sender, disk: Coordinator.Disk, env: Env,
                    store: Store, key: EpochKey, begun: int, arrivals: seq<Arrival>, ended: int)
    requires Coordinator.Inv(c, disk)
    requires c.active.Some? && c.active.value.state == Coordinator.SEND_COMPLETED && 0 < c.active.value.size
    requires Ready(store, key, c.active.value, env) && Compatible(disk, env)
    requires forall x :: x in arrivals ==> x.packet in c.history.sent && x.packet.kind == DATA
    ensures var sent, bundle := c.history.sent, c.history.src.bundle;
      && 2 < |sent| && sent[0].kind == START && sent[|sent| - 1].kind == END
      && ReceiveStep(store, key, sent[0], begun, env).Ok? && key in ReceiveStep(store, key, sent[0], begun, env).value
      && bundle == disk.contents(c.active.value.stamp)
      && Outcome(sent, bundle, arrivals,
                 After(Run(ReceiveStep(store, key, sent[0], begun, env).value[key], arrivals, env),
                       Arrival(sent[|sent| - 1], ended), env), env)
  {
    var a, h := c.active.value, c.history;
    var src, sent := h.src, h.sent;
    var meta := MetaOf(a, src);
    assert IsWholePlan(src, sent) && Coordinator.Describes(a, h, disk);
    hide Coordinator.Inv;
    WholePlanCarriesBundle(src, sent);
    PlanIsLong(src);
    StartIsUnderstood(a, h, disk, env);
    StartOpens(a, src, meta, store, key, begun, env);
    assert sent[0] == Planned(src, 0);
    SentChunks(src, sent, arrivals);
    ArrivalsReceive(meta, src, begun, arrivals, env);
    hide Coordinator.Describes, IsWholePlan, Planned, ReceiveStep, ReadStart, Run, HasReceived, Compatible, Ready, NewEpoch;
    EndOutcome(src, sent, arrivals, Run(NewEpoch(meta, begun), arrivals, env), meta, ended, env);
  }

  lemma PlanIsLong(src: Source)
    requires 0 < |src.bundle|
    ensures 2 < PlanSize(src)
  {
  }

  lemma StartOpens(a: Coordinator.ActiveTransfer, src: Source, meta: Meta, store: Store, key: EpochKey, begun: int, env: Env)
    requires meta == MetaOf(a, src) && ReadStart(src.startPayload, env) == Ok(meta)
    requires Ready(store, key, a, env)
    ensures ReceiveStep(store, key, Planned(src, 0), begun, env) == Ok(store[key := NewEpoch(meta, begun)])
  {
    hide ReadStart, Busy;
  }

  lemma EndOutcome(src: Source, sent: seq<FilePacket>, arrivals: seq<Arrival>, before: Epoch, meta: Meta, ended: int, env: Env)
    requires IsWholePlan(src, sent) && AllChunks(src, arrivals) && ChunkIds(src, GotBy(arrivals))
    requires HasReceived(before, meta, src, GotBy(arrivals))
    requires 0 < meta.size == |src.bundle| && meta.checksum == CfdpChecksum.Checksum(src.bundle, 0)
    requires meta.sha == env.sha256(src.bundle)
    ensures 2 < |sent| && sent[|sent| - 1].kind == END
    ensures Outcome(sent, src.bundle, arrivals, After(before, Arrival(sent[|sent| - 1], ended), env), env)
  {
    var n := ChunkCount(|src.bundle|);
    PlanIsLong(src);
    assert sent[n + 1] == Planned(src, n + 1) && Planned(src, n + 1).kind == END;
    EndDecides(before, meta, src, GotBy(arrivals), ended, env);
    StillReceiving(before, meta, src, GotBy(arrivals));
    GotMeansArrived(src, sent, arrivals);
    hide AcceptEnd, HasReceived, Planned, GotBy, Arrived, ChunkCount, EveryChunkArrived, Complete, AllChunks, IsPlanPrefix, ChunkIds;
  }

  lemma SentChunks(src: Source, sent: seq<FilePacket>, arrivals: seq<Arrival>)
    requires IsWholePlan(src, sent)
    requires forall x :: x in arrivals ==> x.packet in sent && x.packet.kind == DATA
    ensures AllChunks(src, arrivals)
  {
    forall x | x in arrivals ensures IsChunk(src, x.packet) {
      var i :| 0 <= i < |sent| && sent[i] == x.packet;
      assert sent[i] == Planned(src, i);
      if 1 <= i <= ChunkCount(|src.bundle|) { PlannedPlace(src, i); }
    }
  }

  lemma GotMeansArrived(src: Source, sent: seq<FilePacket>, arrivals: seq<Arrival>)
    requires IsWholePlan(src, sent) && AllChunks(src, arrivals)
    ensures forall i :: 1 <= i <= ChunkCount(|src.bundle|) ==>
              (i in GotBy(arrivals) <==> Arrived(arrivals, sent[i]))
    ensures EveryChunkArrived(sent, arrivals) <==> Complete(src, GotBy(arrivals))
  {
    forall i | 1 <= i <= ChunkCount(|src.bundle|)
      ensures i in GotBy(arrivals) <==> Arrived(arrivals, sent[i])
    {
      assert sent[i] == Planned(src, i);
      PlannedPlace(src, i);
      if i in GotBy(arrivals) {
        var x :| x in arrivals && x.packet.sequenceIndex == i;
        assert IsChunk(src, x.packet);
      }
    }
  }

  /** With a hash that separates files, no packets from anywhere can verify as something else. */
  lemma NothingElseVerifies(a: Coordinator.ActiveTransfer, h: Coordinator.History, disk: Coordinator.Disk, env: Env,
                            begun: int, arrivals: seq<Arrival>)
    requires Coordinator.Describes(a, h, disk) && Compatible(disk, env) && 0 < a.size
    requires forall f: seq<byte> :: env.sha256(f) == env.sha256(h.src.bundle) ==> f == h.src.bundle
    requires forall x :: x in arrivals ==> x.packet.kind != START
    ensures ReadStart(h.src.startPayload, env).Ok?
    ensures var e := Run(NewEpoch(ReadStart(h.src.startPayload, env).value, begun), arrivals, env);
      e.status == VERIFIED ==> e.product == Some(h.src.bundle)
  {
    StartIsUnderstood(a, h, disk, env);
    VerifiedMeansAnnounced(NewEpoch(MetaOf(a, h.src), begun), arrivals, env);
  }
}
