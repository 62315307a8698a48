/**
 What a receiving ground station promises about one FilePacket epoch.

 An `Epoch` value holds the bytes accepted so far as a plain map from file offset to byte.
 It is the reference the in-place receiver (`FileReassembler`) is proved against, and the
 value the end-to-end theorems speak about.
 */
module Reassembly {
  import opened Bytes
  import opened FilePackets
  import CfdpChecksum

  datatype ProductRef = ProductRef(instance: nat, bootId: nat, productId: nat)

  /** The fields of a START payload that has been parsed from canonical JSON. */
  datatype StartFields = StartFields(
    sourceBoot: nat, sourceProduct: nat,
    destBoot: nat, destProduct: nat, destTransfer: nat, destSha: int,
    fileSize: int, checksum: int, product: ProductRef, transferId: int)

  /** JSON parsing, hashing and bundle inspection are parameters of the receiver. */
  datatype Env = Env(
    parseStart: seq<byte> -> Option<StartFields>,
    sha256: seq<byte> -> int,
    verifyBundle: seq<byte> -> bool,
    maxBundleBytes: nat)

  datatype Error =
    | InvalidStart | InvalidStartPath | TargetInstanceMismatch | StartConflict | TransferBusy | BundleTooLarge
    | InvalidData | DataRangeInvalid | PacketConflict | MetadataLimit | InvalidEnd | InvalidCancel

  datatype Status = RECEIVING | VERIFIED | INCOMPLETE | CHECKSUM_FAILED | CANCELED

  datatype Reason = NoReason | Gap | FileChecksumMismatch | BundleShaMismatch | ProductVerifyFailed
    | FileSizeMismatch | RemoteCancel | ReassemblyTimeout

  datatype Meta = Meta(payload: seq<byte>, transferId: nat, product: ProductRef,
                       size: nat, checksum: nat, sha: int)

  datatype Placement = Placement(offset: nat, length: nat)

  /** Where the bytes of a packet go. */
  function PlaceOf(p: FilePacket): Placement {
    Placement(p.offset, |p.payload|)
  }

  datatype Terminal = Terminal(kind: PacketType, sequenceIndex: nat, payloadSha: int)

  datatype Epoch = Epoch(
    meta: Meta, status: Status, reason: Reason,
    content: map<nat, byte>, packets: map<nat, Placement>,
    received: nat, terminal: Option<Terminal>, product: Option<seq<byte>>, updatedAt: int)

  /** x is one of the n positions from `offset` on. */
  predicate Within(x: nat, offset: nat, n: nat) {
    offset <= x < offset + n
  }

  /** The bytes a payload puts at its offset. */
  function Segment(offset: nat, payload: seq<byte>): map<nat, byte> {
    map x: nat | offset <= x < offset + |payload| && Within(x, offset, |payload|) :: payload[x - offset]
  }

  /** No byte accepted earlier differs from the one the payload carries for its position. */
  predicate Agrees(content: map<nat, byte>, offset: nat, payload: seq<byte>) {
    forall x :: x in content && offset <= x < offset + |payload| ==> content[x] == payload[x - offset]
  }

  /** The largest element, zero for the empty set. */
  ghost function Largest(s: set<nat>): (r: nat)
    ensures forall x :: x in s ==> x <= r
    ensures s == {} ==> r == 0
    ensures s != {} ==> r in s
  {
    if s == {} then 0
    else
      var x :| x in s;
      var others := s - {x};
      var rest := Largest(others);
      assert forall y :: y in s ==> y == x || y in others;
      if others == {} || x > rest then x else rest
  }

  lemma LargestIs(s: set<nat>, m: nat)
    requires m in s && forall x :: x in s ==> x <= m
    ensures Largest(s) == m
  {
  }

  ghost function NextSequence(packets: map<nat, Placement>): nat {
    Largest(packets.Keys) + 1
  }

  /** Accepting a DATA packet into a receiving epoch. */
  function AcceptData(e: Epoch, p: FilePacket, now: int): Result<Epoch, Error> {
    if p.sequenceIndex == 0 then Err(InvalidData)
    else if p.offset > e.meta.size || p.payload == [] || |p.payload| > e.meta.size - p.offset then Err(DataRangeInvalid)
    else if p.sequenceIndex in e.packets then
      if e.packets[p.sequenceIndex] == Placement(p.offset, |p.payload|) && Agrees(e.content, p.offset, p.payload)
      then Ok(e) else Err(PacketConflict)
    else if !Agrees(e.content, p.offset, p.payload) then Err(PacketConflict)
    else
      var content := e.content + Segment(p.offset, p.payload);
      Ok(e.(content := content, received := |content|, updatedAt := now,
            packets := e.packets[p.sequenceIndex := Placement(p.offset, |p.payload|)]))
  }

  /** The covered bytes read back as a file. */
  function FileOf(content: map<nat, byte>, size: nat): seq<byte> {
    seq(size, i requires 0 <= i < size => if i in content then content[i] else 0)
  }

  /** The verdict on a completely covered file. */
  function Verdict(meta: Meta, file: seq<byte>, endPayload: seq<byte>, env: Env): (Status, Reason)
    requires |endPayload| == 4
  {
    if CfdpChecksum.BigEndian(endPayload) != CfdpChecksum.Checksum(file, 0) || CfdpChecksum.Checksum(file, 0) != meta.checksum
    then (CHECKSUM_FAILED, FileChecksumMismatch)
    else if env.sha256(file) != meta.sha then (CHECKSUM_FAILED, BundleShaMismatch)
    else if !env.verifyBundle(file) then (CHECKSUM_FAILED, ProductVerifyFailed)
    else (VERIFIED, NoReason)
  }

  /** A terminal epoch keeps no packet or range metadata and no staging bytes. */
  function Closed(e: Epoch, status: Status, reason: Reason, product: Option<seq<byte>>, now: int): Epoch {
    e.(status := status, reason := reason, product := product, content := map[], packets := map[], updatedAt := now)
  }

  ghost function AcceptEnd(e: Epoch, p: FilePacket, now: int, env: Env): Result<Epoch, Error> {
    if p.sequenceIndex != NextSequence(e.packets) || p.offset != e.meta.size || |p.payload| != 4 then Err(InvalidEnd)
    else
      var marked := e.(terminal := Some(Terminal(END, p.sequenceIndex, env.sha256(p.payload))));
      if |e.content| != e.meta.size then Ok(Closed(marked, INCOMPLETE, Gap, None, now))
      else
        var file := FileOf(e.content, e.meta.size);
        var (status, reason) := Verdict(e.meta, file, p.payload, env);
        Ok(Closed(marked, status, reason, if status == VERIFIED then Some(file) else None, now))
  }

  ghost function AcceptCancel(e: Epoch, p: FilePacket, now: int, env: Env): Result<Epoch, Error> {
    if p.sequenceIndex != NextSequence(e.packets) then Err(InvalidCancel)
    else
      var marked := e.(terminal := Some(Terminal(CANCEL, p.sequenceIndex, env.sha256(p.payload))));
      Ok(Closed(marked, CANCELED, RemoteCancel, None, now))
  }

  predicate IsDuplicateTerminal(e: Epoch, p: FilePacket, env: Env) {
    e.terminal == Some(Terminal(p.kind, p.sequenceIndex, env.sha256(p.payload)))
  }

  /** Any packet other than START, for an epoch that exists. */
  ghost function Accept(e: Epoch, p: FilePacket, now: int, env: Env): Result<Epoch, Error>
    requires p.kind != START
  {
    if e.status != RECEIVING then
      if IsDuplicateTerminal(e, p, env) then Ok(e) else Err(PacketConflict)
    else match p.kind
      case DATA => AcceptData(e, p, now)
      case END => AcceptEnd(e, p, now, env)
      case CANCEL => AcceptCancel(e, p, now, env)
  }

  /** START payload validation; the size, checksum and identity fields must fit and agree. */
  function ReadStart(payload: seq<byte>, env: Env): Result<Meta, Error> {
    match env.parseStart(payload)
    case None => Err(InvalidStart)
    case Some(f) =>
      if !(0 <= f.transferId <= U32_MAX) || !(0 <= f.fileSize <= U32_MAX) || !(0 <= f.checksum <= U32_MAX) then Err(InvalidStart)
      else if f.sourceBoot != f.product.bootId || f.sourceProduct != f.product.productId then Err(InvalidStartPath)
      else if f.destBoot != f.product.bootId || f.destProduct != f.product.productId || f.destTransfer != f.transferId
      then Err(InvalidStartPath)
      else if f.fileSize == 0 then Err(InvalidStart)
      else Ok(Meta(payload, f.transferId, f.product, f.fileSize, f.checksum, f.destSha))
  }

  function NewEpoch(meta: Meta, now: int): Epoch {
    Epoch(meta, RECEIVING, NoReason, map[], map[], 0, None, None, now)
  }

  // ---------------------------------------------------------------- one epoch, any packets

  /** What every reachable epoch satisfies, whatever packets arrive. */
  ghost predicate EpochInv(e: Epoch, env: Env) {
    && 0 < e.meta.size
    && (e.status == RECEIVING ==>
        && e.terminal.None? && e.product.None?
        && e.received == |e.content|
        && Consistent(e.content, e.packets, e.meta.size))
    && (e.status != RECEIVING ==> e.content == map[] && e.packets == map[])
    && (e.product.Some? <==> e.status == VERIFIED)
    && (e.status == VERIFIED ==>
        && |e.product.value| == e.meta.size
        && CfdpChecksum.Checksum(e.product.value, 0) == e.meta.checksum
        && env.sha256(e.product.value) == e.meta.sha
        && env.verifyBundle(e.product.value))
  }

  ghost predicate Placed(content: map<nat, byte>, at: Placement) {
    0 < at.length && forall x: nat :: at.offset <= x < at.offset + at.length ==> x in content
  }

  lemma PlacedGrows(content: map<nat, byte>, more: map<nat, byte>, at: Placement)
    requires Placed(content, at)
    ensures Placed(content + more, at)
  {
  }

  /** Some recorded packet has brought the byte at position x. */
  ghost predicate Brought(packets: map<nat, Placement>, x: nat) {
    exists k :: k in packets && Within(x, packets[k].offset, packets[k].length)
  }

  /** The covered positions are exactly those of the recorded packets, all inside the file. */
  ghost predicate Consistent(content: map<nat, byte>, packets: map<nat, Placement>, size: nat) {
    && (forall x :: x in content ==> x < size && Brought(packets, x))
    && (forall k :: k in packets ==> 1 <= k && Placed(content, packets[k]))
  }

  lemma ConsistentGrows(content: map<nat, byte>, packets: map<nat, Placement>, size: nat,
                        index: nat, offset: nat, payload: seq<byte>)
    requires Consistent(content, packets, size)
    requires 1 <= index && index !in packets && payload != [] && offset + |payload| <= size
    ensures Consistent(content + Segment(offset, payload), packets[index := Placement(offset, |payload|)], size)
  {
    var segment := Segment(offset, payload);
    var recorded := packets[index := Placement(offset, |payload|)];
    forall x | x in content + segment ensures x < size && Brought(recorded, x) {
      if x in segment {
        assert Within(x, recorded[index].offset, recorded[index].length);
      } else {
        var k :| k in packets && Within(x, packets[k].offset, packets[k].length);
        assert recorded[k] == packets[k];
      }
    }
    forall k | k in recorded ensures 1 <= k && Placed(content + segment, recorded[k]) {
      if k == index {
        assert Placed(segment, Placement(offset, |payload|));
      } else {
        PlacedGrows(content, segment, packets[k]);
      }
    }
  }

  lemma DataKeepsInv(e: Epoch, p: FilePacket, now: int, env: Env)
    requires EpochInv(e, env) && e.status == RECEIVING && AcceptData(e, p, now).Ok?
    ensures EpochInv(AcceptData(e, p, now).value, env)
  {
    if p.sequenceIndex !in e.packets {
      ConsistentGrows(e.content, e.packets, e.meta.size, p.sequenceIndex, p.offset, p.payload);
    }
  }

  lemma FileOfIsFull(content: map<nat, byte>, size: nat)
    ensures |FileOf(content, size)| == size
  {
  }

  lemma EndKeepsInv(e: Epoch, p: FilePacket, now: int, env: Env)
    requires EpochInv(e, env) && e.status == RECEIVING && AcceptEnd(e, p, now, env).Ok?
    ensures EpochInv(AcceptEnd(e, p, now, env).value, env)
  {
    FileOfIsFull(e.content, e.meta.size);
  }

  lemma AcceptKeepsInv(e: Epoch, p: FilePacket, now: int, env: Env)
    requires EpochInv(e, env) && p.kind != START && Accept(e, p, now, env).Ok?
    ensures EpochInv(Accept(e, p, now, env).value, env)
  {
    if e.status == RECEIVING {
      match p.kind
      case DATA => DataKeepsInv(e, p, now, env);
      case END => EndKeepsInv(e, p, now, env);
      case CANCEL =>
    }
  }

  /** Bytes once accepted never change and are never dropped while the epoch is receiving. */
  lemma CoveredBytesNeverChange(e: Epoch, p: FilePacket, now: int, env: Env, x: nat)
    requires p.kind != START && Accept(e, p, now, env).Ok? && x in e.content
    requires Accept(e, p, now, env).value.status == RECEIVING
    ensures x in Accept(e, p, now, env).value.content
    ensures Accept(e, p, now, env).value.content[x] == e.content[x]
  {
    if e.status == RECEIVING && p.kind == DATA && p.offset <= x < p.offset + |p.payload| {
      assert Agrees(e.content, p.offset, p.payload);
    }
  }

  /** A terminal epoch never changes again. */
  lemma TerminalIsAbsorbing(e: Epoch, p: FilePacket, now: int, env: Env)
    requires p.kind != START && e.status != RECEIVING
    ensures Accept(e, p, now, env) == Ok(e) || Accept(e, p, now, env) == Err(PacketConflict)
  {
  }

  datatype Arrival = Arrival(packet: FilePacket, at: int)

  /** An epoch after a packet other than START; a refused packet changes nothing. */
  ghost function After(e: Epoch, arrival: Arrival, env: Env): Epoch
    requires arrival.packet.kind != START
  {
    var r := Accept(e, arrival.packet, arrival.at, env);
    if r.Ok? then r.value else e
  }

  ghost function Run(e: Epoch, arrivals: seq<Arrival>, env: Env): Epoch
    requires forall a :: a in arrivals ==> a.packet.kind != START
  {
    if arrivals == [] then e
    else After(Run(e, arrivals[..|arrivals| - 1], env), arrivals[|arrivals| - 1], env)
  }

  /**
   Whatever packets arrive after START, in whatever order, an epoch that ends up VERIFIED
   handed over a file of exactly the announced size, checksum and hash.
   */
  lemma {:induction false} VerifiedMeansAnnounced(e: Epoch, arrivals: seq<Arrival>, env: Env)
    requires EpochInv(e, env) && forall a :: a in arrivals ==> a.packet.kind != START
    ensures EpochInv(Run(e, arrivals, env), env)
    ensures Run(e, arrivals, env).meta == e.meta
    ensures Run(e, arrivals, env).status == VERIFIED ==>
      var f := Run(e, arrivals, env).product;
      f.Some? && |f.value| == e.meta.size && CfdpChecksum.Checksum(f.value, 0) == e.meta.checksum
      && env.sha256(f.value) == e.meta.sha
  {
    if arrivals != [] {
      var before, last := Run(e, arrivals[..|arrivals| - 1], env), arrivals[|arrivals| - 1];
      VerifiedMeansAnnounced(e, arrivals[..|arrivals| - 1], env);
      if Accept(before, last.packet, last.at, env).Ok? {
        AcceptKeepsInv(before, last.packet, last.at, env);
      }
    }
  }

  // ---------------------------------------------------------------- all epochs of a station

  datatype EpochKey = EpochKey(instance: nat, session: nat, epochId: nat)

  type Store = map<EpochKey, Epoch>

  /** Another epoch of the same spacecraft is still receiving. */
  predicate Busy(store: Store, instance: nat) {
    exists k :: k in store && k.instance == instance && Receiving(store, k)
  }

  function StartStep(store: Store, key: EpochKey, p: FilePacket, now: int, env: Env): Result<Store, Error> {
    if p.sequenceIndex != 0 || p.offset != 0 then Err(InvalidStart)
    else match ReadStart(p.payload, env)
      case Err(e) => Err(e)
      case Ok(meta) =>
        if meta.product.instance != key.instance then Err(TargetInstanceMismatch)
        else if key in store then if store[key].meta.payload == p.payload then Ok(store) else Err(StartConflict)
        else if Busy(store, key.instance) then Err(TransferBusy)
        else if meta.size > env.maxBundleBytes then Err(BundleTooLarge)
        else Ok(store[key := NewEpoch(meta, now)])
  }

  /** One packet for one epoch key; a non-START packet of an unknown epoch is only noted as such. */
  ghost function ReceiveStep(store: Store, key: EpochKey, p: FilePacket, now: int, env: Env): Result<Store, Error> {
    if p.kind == START then StartStep(store, key, p, now, env)
    else if key !in store then Ok(store)
    else match Accept(store[key], p, now, env)
      case Err(e) => Err(e)
      case Ok(epoch) => Ok(store[key := epoch])
  }

  predicate IsStale(e: Epoch, now: int, timeout: int, clockInjected: bool) {
    e.status == RECEIVING && !(e.updatedAt == 0 && !clockInjected) && e.updatedAt + timeout <= now
  }

  function ExpireEpoch(e: Epoch, now: int, timeout: int, clockInjected: bool): Epoch {
    if IsStale(e, now, timeout, clockInjected) then Closed(e, CANCELED, ReassemblyTimeout, None, now) else e
  }

  /** Inactivity timeouts close exactly the stale receiving epochs. */
  function ExpireStep(store: Store, now: int, timeout: int, clockInjected: bool): Store {
    map k | k in store :: ExpireEpoch(store[k], now, timeout, clockInjected)
  }

  ghost predicate StoreInv(store: Store, env: Env) {
    && (forall k :: k in store ==> EpochInv(store[k], env))
    && OneReceivingEach(store)
  }

  /** No spacecraft has two receiving epochs. */
  predicate OneReceivingEach(store: Store) {
    forall k, l :: (k in store && l in store && Receiving(store, k) && Receiving(store, l) && k.instance == l.instance) ==> k == l
  }

  predicate Receiving(store: Store, key: EpochKey)
    requires key in store
  {
    store[key].status == RECEIVING
  }

  datatype StationEvent =
    | Receive(key: EpochKey, packet: FilePacket, at: int)
    | Expire(at: int, timeout: int)

  ghost function StationStep(store: Store, ev: StationEvent, clockInjected: bool, env: Env): Store {
    match ev
    case Receive(key, p, at) =>
      var r := ReceiveStep(store, key, p, at, env);
      if r.Ok? then r.value else store
    case Expire(at, timeout) => ExpireStep(store, at, timeout, clockInjected)
  }

  lemma ReceiveKeepsInv(store: Store, key: EpochKey, p: FilePacket, now: int, env: Env)
    requires StoreInv(store, env) && ReceiveStep(store, key, p, now, env).Ok?
    ensures StoreInv(ReceiveStep(store, key, p, now, env).value, env)
  {
    if p.kind != START && key in store {
      AcceptKeepsInv(store[key], p, now, env);
      if store[key].status != RECEIVING {
        StatusOnlyLeavesReceiving(store[key], p, now, env);
      }
    }
    hide EpochInv, Accept, ReadStart;
  }

  lemma StatusOnlyLeavesReceiving(e: Epoch, p: FilePacket, now: int, env: Env)
    requires p.kind != START && Accept(e, p, now, env).Ok? && e.status != RECEIVING
    ensures Accept(e, p, now, env).value.status != RECEIVING
  {
  }

  /** A step loses no epoch and leaves the terminal ones as they are. */
  ghost predicate KeepsTerminal(store: Store, next: Store) {
    forall k :: k in store ==> k in next && (store[k].status != RECEIVING ==> next[k] == store[k])
  }

  lemma ReceiveKeepsTerminal(store: Store, key: EpochKey, p: FilePacket, now: int, env: Env)
    requires ReceiveStep(store, key, p, now, env).Ok?
    ensures KeepsTerminal(store, ReceiveStep(store, key, p, now, env).value)
  {
    if p.kind != START && key in store && store[key].status != RECEIVING {
      TerminalIsAbsorbing(store[key], p, now, env);
    }
    hide Accept, ReadStart, Busy;
  }

  lemma ExpireKeepsInv(store: Store, now: int, timeout: int, clockInjected: bool, env: Env)
    requires StoreInv(store, env)
    ensures StoreInv(ExpireStep(store, now, timeout, clockInjected), env)
    ensures KeepsTerminal(store, ExpireStep(store, now, timeout, clockInjected))
  {
    var next := ExpireStep(store, now, timeout, clockInjected);
    assert forall k :: k in store ==> next[k] == ExpireEpoch(store[k], now, timeout, clockInjected);
  }

  lemma StationStepKeepsInv(store: Store, ev: StationEvent, clockInjected: bool, env: Env)
    requires StoreInv(store, env)
    ensures StoreInv(StationStep(store, ev, clockInjected, env), env)
    ensures KeepsTerminal(store, StationStep(store, ev, clockInjected, env))
  {
    hide StoreInv, ReceiveStep, ExpireStep;
    match ev
    case Receive(key, p, at) =>
      if ReceiveStep(store, key, p, at, env).Ok? {
        ReceiveKeepsInv(store, key, p, at, env);
        ReceiveKeepsTerminal(store, key, p, at, env);
      }
    case Expire(at, timeout) => ExpireKeepsInv(store, at, timeout, clockInjected, env);
  }

  ghost function StationRun(store: Store, events: seq<StationEvent>, clockInjected: bool, env: Env): Store
    decreases |events|
  {
    if events == [] then store else StationRun(StationStep(store, events[0], clockInjected, env), events[1..], clockInjected, env)
  }

  /**
   In every run of any packets and timeouts: each spacecraft has at most one receiving epoch,
   every VERIFIED epoch handed over exactly the announced file, and terminal epochs never change.
   */
  lemma {:induction false} StationIsSafe(store: Store, events: seq<StationEvent>, clockInjected: bool, env: Env)
    requires StoreInv(store, env)
    ensures StoreInv(StationRun(store, events, clockInjected, env), env)
    ensures forall k :: k in store && store[k].status != RECEIVING ==>
              k in StationRun(store, events, clockInjected, env)
              && StationRun(store, events, clockInjected, env)[k] == store[k]
    decreases |events|
  {
    if events != [] {
      StationStepKeepsInv(store, events[0], clockInjected, env);
      StationIsSafe(StationStep(store, events[0], clockInjected, env), events[1..], clockInjected, env);
    }
  }

  // ---------------------------------------------------------------- when a packet is accepted

  /** The packet lies in the file and brings something. */
  predicate InFile(e: Epoch, p: FilePacket) {
    p.payload != [] && p.offset + |p.payload| <= e.meta.size
  }

  /** No byte accepted so far differs, and no other place was given under the packet's index. */
  ghost predicate Fitting(e: Epoch, p: FilePacket) {
    && (forall x :: x in e.content && p.offset <= x < p.offset + |p.payload| ==> e.content[x] == p.payload[x - p.offset])
    && (p.sequenceIndex in e.packets ==> e.packets[p.sequenceIndex] == PlaceOf(p))
  }

  /** DATA is accepted exactly under an index from one on, inside the file, and without contradicting what came before. */
  lemma DataAcceptedIff(e: Epoch, p: FilePacket, now: int)
    ensures var r := AcceptData(e, p, now);
      && (r.Ok? <==> 1 <= p.sequenceIndex && InFile(e, p) && Fitting(e, p))
      && (r == Err(InvalidData) <==> p.sequenceIndex == 0)
      && (r == Err(DataRangeInvalid) <==> 1 <= p.sequenceIndex && !InFile(e, p))
      && (r.Err? ==> r.error == InvalidData || r.error == DataRangeInvalid || r.error == PacketConflict)
  {
    hide Segment;
  }

  /** A repeated packet changes nothing; a new one adds its bytes and its place, and no other. */
  lemma AcceptedDataAdds(e: Epoch, p: FilePacket, now: int)
    requires AcceptData(e, p, now).Ok?
    ensures var d := AcceptData(e, p, now).value;
      && (p.sequenceIndex in e.packets ==> d == e)
      && (p.sequenceIndex !in e.packets ==>
            && d.packets == e.packets[p.sequenceIndex := PlaceOf(p)] && d.received == |d.content| && d.updatedAt == now
            && d.content == e.content + Segment(p.offset, p.payload)
            && d == e.(content := d.content, packets := d.packets, received := d.received, updatedAt := d.updatedAt))
  {
    hide Segment, Agrees;
  }

  /** The bytes a packet brings lie where its offset says. */
  lemma SegmentIs(p: FilePacket, x: nat)
    ensures x in Segment(p.offset, p.payload) <==> p.offset <= x < p.offset + |p.payload|
    ensures p.offset <= x < p.offset + |p.payload| ==> Segment(p.offset, p.payload)[x] == p.payload[x - p.offset]
  {
  }

  /** The packet's index is the one after all that were recorded. */
  ghost predicate ComesNext(e: Epoch, p: FilePacket) {
    && (forall k :: k in e.packets ==> k < p.sequenceIndex)
    && (p.sequenceIndex == 1 || p.sequenceIndex - 1 in e.packets)
    && 1 <= p.sequenceIndex
  }

  lemma NextMeans(e: Epoch, p: FilePacket)
    requires forall k :: k in e.packets ==> 1 <= k
    ensures p.sequenceIndex == NextSequence(e.packets) <==> ComesNext(e, p)
  {
    if ComesNext(e, p) && p.sequenceIndex - 1 in e.packets {
      LargestIs(e.packets.Keys, p.sequenceIndex - 1);
    }
    if ComesNext(e, p) && p.sequenceIndex - 1 !in e.packets {
      assert forall k :: k in e.packets ==> false;
      assert e.packets.Keys == {};
    }
  }

  /** The epoch is closed, keeps no metadata, and remembers the packet that closed it. */
  predicate ClosedBy(e: Epoch, d: Epoch, p: FilePacket, now: int, env: Env) {
    && d.terminal == Some(Terminal(p.kind, p.sequenceIndex, env.sha256(p.payload)))
    && d.content == map[] && d.packets == map[] && d.updatedAt == now && d.meta == e.meta && d.received == e.received
  }

  /** Every byte of the file has been accepted, and together they are this file. */
  ghost predicate HasFile(e: Epoch, file: seq<byte>) {
    |file| == e.meta.size && forall x: nat :: x < e.meta.size ==> x in e.content && e.content[x] == file[x]
  }

  ghost predicate Whole(e: Epoch) {
    forall x: nat :: x < e.meta.size ==> x in e.content
  }

  /** The first check that the assembled file fails, in their order. */
  predicate VerdictFor(file: seq<byte>, e: Epoch, d: Epoch, announced: nat, env: Env) {
    var checksum := CfdpChecksum.Checksum(file, 0);
    if announced != checksum || checksum != e.meta.checksum then
      d.status == CHECKSUM_FAILED && d.reason == FileChecksumMismatch && d.product.None?
    else if env.sha256(file) != e.meta.sha then d.status == CHECKSUM_FAILED && d.reason == BundleShaMismatch && d.product.None?
    else if !env.verifyBundle(file) then d.status == CHECKSUM_FAILED && d.reason == ProductVerifyFailed && d.product.None?
    else d.status == VERIFIED && d.reason == NoReason && d.product == Some(file)
  }

  /**
   END is taken exactly when it comes next, names the file's end, and carries four bytes. With a
   byte missing the epoch is INCOMPLETE; otherwise the assembled file decides.
   */
  lemma EndOutcome(e: Epoch, p: FilePacket, now: int, env: Env)
    requires EpochInv(e, env) && e.status == RECEIVING && p.kind == END
    ensures var r := AcceptEnd(e, p, now, env);
      && (r.Ok? <==> ComesNext(e, p) && p.offset == e.meta.size && |p.payload| == 4)
      && (r.Err? ==> r.error == InvalidEnd)
      && (r.Ok? ==> ClosedBy(e, r.value, p, now, env))
      && (r.Ok? && !Whole(e) ==> r.value.status == INCOMPLETE && r.value.reason == Gap && r.value.product.None?)
      && (forall file :: r.Ok? && HasFile(e, file) ==> VerdictFor(file, e, r.value, CfdpChecksum.BigEndian(p.payload), env))
  {
    NextMeans(e, p);
    WholeIsFull(e, env);
    hide EpochInv, NextSequence, ComesNext;
    forall file | HasFile(e, file) ensures FileOf(e.content, e.meta.size) == file && Whole(e) {
    }
  }

  lemma WholeIsFull(e: Epoch, env: Env)
    requires EpochInv(e, env) && e.status == RECEIVING
    ensures |e.content| == e.meta.size <==> Whole(e)
  {
    FullOrNot(e.content.Keys, e.meta.size);
    assert |e.content.Keys| == |e.content|;
  }

  lemma {:induction false} FullOrNot(s: set<nat>, n: nat)
    requires forall x :: x in s ==> x < n
    ensures |s| <= n
    ensures |s| == n <==> forall x: nat :: x < n ==> x in s
    decreases n
  {
    if n == 0 {
      assert s == {};
    } else {
      var t := s - {n - 1};
      FullOrNot(t, n - 1);
      if n - 1 in s {
        assert |s| == |t| + 1;
        assert forall x: nat :: x < n - 1 ==> (x in s <==> x in t);
      } else {
        assert s == t;
      }
    }
  }

  /** CANCEL is taken exactly when it comes next. */
  lemma CancelOutcome(e: Epoch, p: FilePacket, now: int, env: Env)
    requires EpochInv(e, env) && e.status == RECEIVING && p.kind == CANCEL
    ensures var r := AcceptCancel(e, p, now, env);
      && (r.Ok? <==> ComesNext(e, p)) && (r.Err? ==> r.error == InvalidCancel)
      && (r.Ok? ==> ClosedBy(e, r.value, p, now, env) && r.value.status == CANCELED && r.value.reason == RemoteCancel && r.value.product.None?)
  {
    NextMeans(e, p);
    hide NextSequence, ComesNext;
  }

  /** The packet that closed an epoch is answered when it comes again, and changes nothing; any other is refused. */
  lemma ClosingPacketIsAnswered(e: Epoch, p: FilePacket, now: int, q: FilePacket, later: int, env: Env)
    requires EpochInv(e, env) && e.status == RECEIVING && (p.kind == END || p.kind == CANCEL) && Accept(e, p, now, env).Ok?
    requires q.kind != START
    ensures var d := Accept(e, p, now, env).value;
      && (q == p ==> Accept(d, q, later, env) == Ok(d))
      && (q.kind != p.kind || q.sequenceIndex != p.sequenceIndex ==> Accept(d, q, later, env) == Err(PacketConflict))
  {
    if p.kind == END { EndOutcome(e, p, now, env); } else { CancelOutcome(e, p, now, env); }
    hide EpochInv, Verdict, FileOf, NextSequence;
  }

  // ---------------------------------------------------------------- when START is accepted

  /** The announced identities, numbers and paths fit together. */
  predicate WellAnnounced(f: StartFields) {
    && 0 <= f.transferId <= U32_MAX && 0 < f.fileSize <= U32_MAX && 0 <= f.checksum <= U32_MAX
    && f.sourceBoot == f.product.bootId && f.sourceProduct == f.product.productId
    && f.destBoot == f.product.bootId && f.destProduct == f.product.productId && f.destTransfer == f.transferId
  }

  /** START payloads are read exactly when they parse and fit together, and read as announced. */
  lemma StartReadIff(payload: seq<byte>, env: Env)
    ensures ReadStart(payload, env).Ok? <==> env.parseStart(payload).Some? && WellAnnounced(env.parseStart(payload).value)
    ensures ReadStart(payload, env).Ok? ==>
      var f, m := env.parseStart(payload).value, ReadStart(payload, env).value;
      m == Meta(payload, f.transferId, f.product, f.fileSize, f.checksum, f.destSha)
    ensures ReadStart(payload, env).Err? ==> ReadStart(payload, env).error == InvalidStart || ReadStart(payload, env).error == InvalidStartPath
  {
  }

  /**
   START opens an epoch exactly at index and offset zero, readable, for its own spacecraft, under a
   new key, with no other epoch of the spacecraft receiving, and within the size limit. The same
   START again is answered; another one under a used key is a conflict.
   */
  lemma StartOutcome(store: Store, key: EpochKey, p: FilePacket, now: int, env: Env)
    ensures var r := StartStep(store, key, p, now, env);
      var meta := ReadStart(p.payload, env);
      var sound := p.sequenceIndex == 0 && p.offset == 0 && meta.Ok? && meta.value.product.instance == key.instance;
      var free := forall k :: k in store && k.instance == key.instance ==> store[k].status != RECEIVING;
      && (r.Ok? && r.value != store <==> sound && key !in store && free && meta.value.size <= env.maxBundleBytes)
      && (r.Ok? && r.value != store ==> r.value == store[key := NewEpoch(meta.value, now)])
      && (key in store ==> (r == Ok(store) <==> sound && store[key].meta.payload == p.payload))
      && (key in store ==> (r == Err(StartConflict) <==> sound && store[key].meta.payload != p.payload))
      && (sound && key !in store && !free ==> r == Err(TransferBusy))
      && (sound && key !in store && free && meta.value.size > env.maxBundleBytes ==> r == Err(BundleTooLarge))
      && (p.sequenceIndex == 0 && p.offset == 0 && meta.Ok? && !sound ==> r == Err(TargetInstanceMismatch))
  {
    StartReadIff(p.payload, env);
    hide ReadStart, WellAnnounced;
    assert Busy(store, key.instance) <==> !(forall k :: k in store && k.instance == key.instance ==> store[k].status != RECEIVING) by {
      assert forall k :: k in store ==> (Receiving(store, k) <==> store[k].status == RECEIVING);
    }
    if key !in store && ReadStart(p.payload, env).Ok? {
      assert key in store[key := NewEpoch(ReadStart(p.payload, env).value, now)];
    }
  }

  /** A packet other than START for an epoch nobody has opened is taken note of and changes no epoch. */
  lemma UnopenedIsIgnored(store: Store, key: EpochKey, p: FilePacket, now: int, env: Env)
    requires p.kind != START && key !in store
    ensures ReceiveStep(store, key, p, now, env) == Ok(store)
  {
  }

  // ---------------------------------------------------------------- inactivity

  lemma PutBack(store: Store, key: EpochKey)
    requires key in store
    ensures store[key := store[key]] == store
  {
  }

  /** A packet that changes the station stamps its epoch with the time of its arrival. */
  lemma ChangeIsStamped(store: Store, key: EpochKey, p: FilePacket, now: int, env: Env)
    requires ReceiveStep(store, key, p, now, env).Ok? && ReceiveStep(store, key, p, now, env).value != store
    ensures var next := ReceiveStep(store, key, p, now, env).value;
      && key in next && next[key].updatedAt == now
      && (forall k :: k != key ==> (k in next <==> k in store) && (k in store ==> next[k] == store[k]))
  {
    if p.kind != START && key in store {
      PutBack(store, key);
    }
    hide ReadStart, Busy, FileOf, Verdict, NextSequence;
  }

  /** No packet of the run is for this epoch. */
  predicate Quiet(events: seq<StationEvent>, key: EpochKey) {
    forall ev :: ev in events && ev.Receive? ==> ev.key != key
  }

  /** The expiry comes at or after the end of the timeout that began with the last accepted packet. */
  predicate Late(ev: StationEvent, last: int) {
    ev.Expire? && last + ev.timeout <= ev.at
  }

  /** What a timeout leaves of a receiving epoch. */
  predicate TimedOut(was: Epoch, e: Epoch) {
    && e.status == CANCELED && e.reason == ReassemblyTimeout && e.product == None && e.content == map[] && e.packets == map[]
    && e.meta == was.meta
  }

  lemma QuietStep(store: Store, ev: StationEvent, clockInjected: bool, env: Env, key: EpochKey)
    requires key in store && (ev.Receive? ==> ev.key != key)
    ensures var next := StationStep(store, ev, clockInjected, env);
      && key in next
      && (if store[key].status == RECEIVING && Late(ev, store[key].updatedAt) && (store[key].updatedAt != 0 || clockInjected)
          then TimedOut(store[key], next[key]) && next[key].updatedAt == ev.at
          else next[key] == store[key])
  {
    hide Accept, ReadStart, Busy;
  }

  /** Without packets a closed epoch stays as it is. */
  lemma {:induction false} QuietClosed(store: Store, events: seq<StationEvent>, clockInjected: bool, env: Env, key: EpochKey)
    requires key in store && store[key].status != RECEIVING && Quiet(events, key)
    ensures key in StationRun(store, events, clockInjected, env) && StationRun(store, events, clockInjected, env)[key] == store[key]
    decreases |events|
  {
    hide StationStep;
    if events != [] {
      assert events[0] in events;
      QuietStep(store, events[0], clockInjected, env, key);
      QuietClosed(StationStep(store, events[0], clockInjected, env), events[1..], clockInjected, env, key);
    }
  }

  /**
   A receiving epoch that gets no more packets is unchanged at the end of a run exactly when every
   expiry came before its last packet's time plus the timeout; otherwise it is CANCELED for
   inactivity.
   */
  lemma {:induction false} TimesOutIff(store: Store, events: seq<StationEvent>, clockInjected: bool, env: Env, key: EpochKey)
    requires key in store && store[key].status == RECEIVING && Quiet(events, key)
    requires store[key].updatedAt != 0 || clockInjected
    ensures key in StationRun(store, events, clockInjected, env)
    ensures var e := StationRun(store, events, clockInjected, env)[key];
      && (e == store[key] <==> forall ev :: ev in events ==> !Late(ev, store[key].updatedAt))
      && (e != store[key] ==> TimedOut(store[key], e))
    decreases |events|
  {
    if events != [] {
      assert events[0] in events;
      var next := StationStep(store, events[0], clockInjected, env);
      QuietStep(store, events[0], clockInjected, env, key);
      hide StationStep;
      if Late(events[0], store[key].updatedAt) {
        QuietClosed(next, events[1..], clockInjected, env, key);
      } else {
        TimesOutIff(next, events[1..], clockInjected, env, key);
        assert forall ev :: ev in events ==> ev == events[0] || ev in events[1..];
      }
    }
  }

  /** An epoch whose last packet came without a time, stamped zero, never times out unless the station has been given a clock. */
  lemma {:induction false} UnstampedNeverTimesOut(store: Store, events: seq<StationEvent>, env: Env, key: EpochKey)
    requires key in store && store[key].updatedAt == 0 && Quiet(events, key)
    ensures key in StationRun(store, events, false, env) && StationRun(store, events, false, env)[key] == store[key]
    decreases |events|
  {
    if events != [] {
      assert events[0] in events;
      QuietStep(store, events[0], false, env, key);
      hide StationStep;
      UnstampedNeverTimesOut(StationStep(store, events[0], false, env), events[1..], env, key);
    }
  }

  /** The packets of one epoch as they come to the station. */
  function Receives(key: EpochKey, arrivals: seq<Arrival>): seq<StationEvent> {
    seq(|arrivals|, i requires 0 <= i < |arrivals| => Receive(key, arrivals[i].packet, arrivals[i].at))
  }

  /** Within the station an epoch takes its packets as it would alone, and no other epoch is touched. */
  lemma {:induction false} StationRunsEpoch(store: Store, key: EpochKey, arrivals: seq<Arrival>, clockInjected: bool, env: Env)
    requires key in store && forall a :: a in arrivals ==> a.packet.kind != START
    ensures StationRun(store, Receives(key, arrivals), clockInjected, env) == store[key := Run(store[key], arrivals, env)]
  {
    if arrivals == [] {
      assert store == store[key := store[key]];
    } else {
      var init, last := arrivals[..|arrivals| - 1], arrivals[|arrivals| - 1];
      assert Receives(key, arrivals) == Receives(key, init) + [Receive(key, last.packet, last.at)];
      StationRunsEpoch(store, key, init, clockInjected, env);
      StationRunSnoc(store, Receives(key, init), Receive(key, last.packet, last.at), clockInjected, env);
      hide StationRun, Accept;
      var before := store[key := Run(store[key], init, env)];
      assert StationStep(before, Receive(key, last.packet, last.at), clockInjected, env) == store[key := Run(store[key], arrivals, env)];
    }
  }

  lemma {:induction false} StationRunSnoc(store: Store, events: seq<StationEvent>, ev: StationEvent, clockInjected: bool, env: Env)
    ensures StationRun(store, events + [ev], clockInjected, env)
         == StationStep(StationRun(store, events, clockInjected, env), ev, clockInjected, env)
    decreases |events|
  {
    hide StationStep;
    if events == [] {
      assert [] + [ev] == [ev] && [ev][1..] == [];
    } else {
      assert (events + [ev])[1..] == events[1..] + [ev];
      StationRunSnoc(StationStep(store, events[0], clockInjected, env), events[1..], ev, clockInjected, env);
    }
  }
}
