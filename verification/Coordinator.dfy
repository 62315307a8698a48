/**
 The single-transfer downlink coordinator as a state machine over values.

 A step is one call of the coordinator; a refused call changes nothing. `History` records what
 the calls did, so that invariants can speak about whole runs: the packets whose completion
 succeeded, the leases handed out and consumed, and the transfer ids ever started.
 */
module Coordinator {
  import opened Bytes
  import opened FilePackets
  import opened SendPlan
  import opened Reassembly
  import CfdpChecksum

  datatype TransferState =
    | SENDING | CANCEL_REQUESTED | CANCEL_DRAINING | ABORTING | COOLDOWN
    | SEND_COMPLETED | SEND_FAILED | SEND_CANCELED

  predicate IsTerminal(s: TransferState) {
    s == SEND_COMPLETED || s == SEND_FAILED || s == SEND_CANCELED
  }

  predicate IsOpen(s: TransferState) {
    s == SENDING || s == CANCEL_REQUESTED || s == CANCEL_DRAINING
  }

  /** Device, inode and modification time are one tag; equal stamps mean equal bytes. */
  datatype Stamp = Stamp(size: nat, tag: nat)

  datatype Disk = Disk(contents: Stamp -> seq<byte>, sha256: seq<byte> -> int, encodeStart: StartFields -> seq<byte>)

  /** The stamps seen at the three checks of one packet read. */
  datatype Looks = Looks(first: Stamp, second: Stamp, third: Stamp)

  datatype Lease = Lease(attempt: nat, id: nat, transferId: nat, packet: FilePacket)

  datatype LinkStatus = Accepted | Refused(code: string)

  datatype SendError =
    | BadTransferId | Busy | Retired | BundleMissing | TooLarge | BundleMutated | BundleTruncated
    | NotActive | FrameInFlight | NotAborting | BufferInFlight | EpochNotClosed

  datatype ActiveTransfer = ActiveTransfer(
    transferId: u32, product: ProductRef, size: nat, sha: int, checksum: u32, stamp: Stamp, attempt: nat,
    state: TransferState, nextOffset: nat, nextSequence: nat, packetSequence: nat, lease: Option<Lease>,
    gateOpen: bool, abortReason: Option<string>, epochClosed: bool, cooldownTicks: nat,
    afterCooldown: Option<TransferState>)

  datatype History = History(
    src: Source, sent: seq<FilePacket>, issued: map<nat, Lease>, completed: set<nat>, started: set<nat>)

  datatype Sender = Sender(
    active: Option<ActiveTransfer>, closed: set<nat>, nextAttempt: nat, nextLease: nat, history: History)

  function Fields(a: ActiveTransfer): StartFields {
    StartFields(a.product.bootId, a.product.productId,
                a.product.bootId, a.product.productId, a.transferId, a.sha,
                a.size, a.checksum, a.product, a.transferId)
  }

  /** Seek and read: at most n bytes from the offset on. */
  function ReadAt(file: seq<byte>, offset: nat, n: nat): seq<byte> {
    if offset >= |file| then [] else if offset + n <= |file| then file[offset..offset + n] else file[offset..]
  }

  // ---------------------------------------------------------------- calls

  function Start(c: Sender, id: int, product: ProductRef, seen: Option<Stamp>, again: Stamp, disk: Disk): Result<Sender, SendError> {
    if !(0 <= id <= U32_MAX) then Err(BadTransferId)
    else if c.active.Some? && !IsTerminal(c.active.value.state) then Err(Busy)
    else if id in c.closed then Err(Retired)
    else if seen.None? then Err(BundleMissing)
    else if seen.value.size > U32_MAX then Err(TooLarge)
    else
      var bundle := disk.contents(seen.value);
      if again != seen.value || |bundle| != seen.value.size then Err(BundleMutated)
      else
        var a := ActiveTransfer(id, product, |bundle|, disk.sha256(bundle), CfdpChecksum.Checksum(bundle, 0), seen.value,
                                c.nextAttempt, SENDING, 0, 0, 0, None, true, None, false, 0, None);
        Ok(c.(active := Some(a), nextAttempt := c.nextAttempt + 1,
              history := c.history.(src := Source(bundle, disk.encodeStart(Fields(a))), sent := [],
                                    started := c.history.started + {id})))
  }

  function ReadData(a: ActiveTransfer, looks: Looks, disk: Disk): Result<seq<byte>, SendError>
    requires a.nextOffset <= a.size
  {
    if looks.second != a.stamp then Err(BundleMutated)
    else
      var left := a.size - a.nextOffset;
      var payload := ReadAt(disk.contents(a.stamp), a.nextOffset, if left < CHUNK then left else CHUNK);
      if looks.third != a.stamp then Err(BundleMutated)
      else if payload == [] then Err(BundleTruncated)
      else Ok(payload)
  }

  /** The packet to send next, if the gate is open. */
  function NextPacket(a: ActiveTransfer, looks: Looks, disk: Disk): Result<Option<FilePacket>, SendError>
  {
    if !a.gateOpen || a.state == ABORTING || a.state == COOLDOWN || IsTerminal(a.state) then Ok(None)
    else if looks.first != a.stamp then Err(BundleMutated)
    else if a.nextSequence == 0 then Ok(Some(FilePacket(START, 0, 0, disk.encodeStart(Fields(a)))))
    else if a.state == CANCEL_REQUESTED && a.nextOffset < a.size then
      Ok(Some(FilePacket(CANCEL, a.nextSequence, a.nextOffset, CANCEL_PAYLOAD)))
    else if a.nextOffset < a.size then
      match ReadData(a, looks, disk)
      case Err(e) => Err(e)
      case Ok(payload) => Ok(Some(FilePacket(DATA, a.nextSequence, a.nextOffset, payload)))
    else Ok(Some(FilePacket(END, a.nextSequence, a.size, U32Bytes(a.checksum))))
  }

  predicate ActiveFor(c: Sender, id: nat) {
    c.active.Some? && c.active.value.transferId == id
  }

  /** Reserves the next packet under a fresh lease; a CANCEL packet moves the state on. */
  function NextFrame(c: Sender, id: nat, looks: Looks, disk: Disk): Result<Sender, SendError>
  {
    if !ActiveFor(c, id) then Err(NotActive)
    else if c.active.value.lease.Some? then Err(FrameInFlight)
    else match NextPacket(c.active.value, looks, disk)
      case Err(e) => Err(e)
      case Ok(None) => Ok(c)
      case Ok(Some(p)) =>
        var a := c.active.value;
        var lease := Lease(a.attempt, c.nextLease, a.transferId, p);
        Ok(c.(active := Some(a.(lease := Some(lease), state := if p.kind == CANCEL then CANCEL_DRAINING else a.state)),
              nextLease := c.nextLease + 1,
              history := c.history.(issued := c.history.issued[c.nextLease := lease])))
  }

  /** The queue refused the frame: the lease is dropped, everything else stays. */
  function DropLease(c: Sender): Sender {
    if c.active.Some? then c.(active := Some(c.active.value.(lease := None))) else c
  }

  predicate OwnsLease(c: Sender, lease: Lease) {
    && c.active.Some? && c.active.value.attempt == lease.attempt && c.active.value.transferId == lease.transferId
    && c.active.value.lease.Some? && c.active.value.lease.value.id == lease.id
  }

  function NextCount(n: nat): nat {
    (n + 1) % 16384
  }

  function AfterCompletion(a: ActiveTransfer, lease: Lease, status: LinkStatus): ActiveTransfer {
    var b := a.(lease := None);
    if a.state == ABORTING then b
    else if status.Refused? then
      b.(gateOpen := false, afterCooldown := Some(SEND_FAILED), state := ABORTING, abortReason := Some("LINK_" + status.code))
    else
      var d := b.(packetSequence := NextCount(a.packetSequence), nextSequence := lease.packet.sequenceIndex + 1);
      match lease.packet.kind
      case START => d
      case DATA => d.(nextOffset := lease.packet.offset + |lease.packet.payload|)
      case END => d.(gateOpen := false, epochClosed := true, afterCooldown := Some(SEND_COMPLETED), state := COOLDOWN)
      case CANCEL => d.(gateOpen := false, epochClosed := true, afterCooldown := Some(SEND_CANCELED), state := COOLDOWN)
  }

  /** A completion callback; only the outstanding lease of the active attempt is accepted. */
  function Complete(c: Sender, lease: Lease, status: LinkStatus): (Sender, bool) {
    if !OwnsLease(c, lease) then (c, false)
    else
      var counted := c.active.value.state != ABORTING && status.Accepted?;
      (c.(active := Some(AfterCompletion(c.active.value, lease, status)),
          history := c.history.(sent := if counted then c.history.sent + [lease.packet] else c.history.sent,
                                completed := c.history.completed + {lease.id})), true)
  }

  function BeginAbort(c: Sender, id: nat, reason: string): Result<Sender, SendError> {
    if !ActiveFor(c, id) then Err(NotActive)
    else if IsTerminal(c.active.value.state) then Ok(c)
    else Ok(c.(active := Some(c.active.value.(gateOpen := false, afterCooldown := Some(SEND_FAILED), state := ABORTING,
                                              abortReason := Some(reason)))))
  }

  function CloseFence(c: Sender, id: nat): Result<Sender, SendError> {
    if !ActiveFor(c, id) then Err(NotActive)
    else if c.active.value.state != ABORTING then Err(NotAborting)
    else if c.active.value.lease.Some? then Err(BufferInFlight)
    else Ok(c.(active := Some(c.active.value.(epochClosed := true, state := COOLDOWN))))
  }

  function Tick(c: Sender, id: nat, required: nat): Result<Sender, SendError> {
    if !ActiveFor(c, id) then Err(NotActive)
    else if c.active.value.state != COOLDOWN then Ok(c)
    else if !c.active.value.epochClosed then Err(EpochNotClosed)
    else
      var a := c.active.value.(cooldownTicks := c.active.value.cooldownTicks + 1);
      if a.cooldownTicks < required then Ok(c.(active := Some(a)))
      else Ok(c.(active := Some(a.(state := if a.afterCooldown.Some? then a.afterCooldown.value else SEND_FAILED)),
                 closed := c.closed + {id}))
  }

  /** As many ticks as the cooldown needs. */
  function Drained(c: Sender, required: nat): Sender
    requires c.active.Some? && c.active.value.state == COOLDOWN
  {
    var a := c.active.value;
    c.(active := Some(a.(cooldownTicks := if a.cooldownTicks + 1 >= required then a.cooldownTicks + 1 else required,
                         state := if a.afterCooldown.Some? then a.afterCooldown.value else SEND_FAILED)),
       closed := c.closed + {a.transferId})
  }

  function RequestCancel(c: Sender, id: nat): Result<Sender, SendError> {
    if !ActiveFor(c, id) then Err(NotActive)
    else if c.active.value.state == SENDING then Ok(c.(active := Some(c.active.value.(state := CANCEL_REQUESTED))))
    else Ok(c)
  }

  // ---------------------------------------------------------------- runs

  datatype Event =
    | StartTransfer(id: int, product: ProductRef, seen: Option<Stamp>, again: Stamp)
    | Next(tid: nat, looks: Looks)
    | Enqueue(tid: nat, looks: Looks, admitted: bool)
    | Completion(lease: Lease, status: LinkStatus)
    | Abort(tid: nat, reason: string)
    | Fence(tid: nat)
    | CooldownTick(tid: nat)
    | Cancel(tid: nat)

  function Or(r: Result<Sender, SendError>, c: Sender): Sender {
    if r.Ok? then r.value else c
  }

  /** One call; a completion can only present a lease that was handed out. */
  function Step(c: Sender, ev: Event, disk: Disk, required: nat): Sender
  {
    match ev
    case StartTransfer(id, product, seen, again) => Or(Start(c, id, product, seen, again, disk), c)
    case Next(id, looks) => Or(NextFrame(c, id, looks, disk), c)
    case Enqueue(id, looks, admitted) =>
      var r := NextFrame(c, id, looks, disk);
      if r.Err? then c else if admitted then r.value else DropLease(r.value)
    case Completion(lease, status) =>
      if lease.id in c.history.issued && c.history.issued[lease.id] == lease then Complete(c, lease, status).0 else c
    case Abort(id, reason) => Or(BeginAbort(c, id, reason), c)
    case Fence(id) => Or(CloseFence(c, id), c)
    case CooldownTick(id) => Or(Tick(c, id, required), c)
    case Cancel(id) => Or(RequestCancel(c, id), c)
  }

  const INITIAL: Sender := Sender(None, {}, 1, 1, History(Source([], []), [], map[], {}, {}))

  // ---------------------------------------------------------------- invariant

  /** The active record describes the bundle it was started with. */
  predicate Describes(a: ActiveTransfer, h: History, disk: Disk) {
    && h.src.bundle == disk.contents(a.stamp)
    && a.size == |h.src.bundle| <= U32_MAX
    && a.checksum == CfdpChecksum.Checksum(h.src.bundle, 0)
    && a.sha == disk.sha256(h.src.bundle)
    && h.src.startPayload == disk.encodeStart(Fields(a))
  }

  /** While the gate is open the next packet continues the plan. */
  predicate Advancing(a: ActiveTransfer, h: History) {
    && IsPlanPrefix(h.src, h.sent)
    && a.nextSequence == |h.sent| < PlanSize(h.src)
    && a.nextOffset == (if a.nextSequence == 0 then 0 else Boundary(a.size, a.nextSequence - 1))
  }

  predicate NextInPlan(a: ActiveTransfer, h: History, p: FilePacket) {
    || p == Planned(h.src, |h.sent|)
    || (a.state == CANCEL_DRAINING && 1 <= |h.sent| <= ChunkCount(|h.src.bundle|) && p == CancelAt(h.src, |h.sent|))
  }

  predicate LeaseInv(a: ActiveTransfer, h: History, nextLease: nat) {
    a.lease.Some? ==>
      && a.lease.value.id in h.issued && h.issued[a.lease.value.id] == a.lease.value
      && a.lease.value.id !in h.completed
      && a.lease.value.attempt == a.attempt && a.lease.value.transferId == a.transferId
      && (a.gateOpen || a.state == ABORTING)
      && (a.gateOpen ==> NextInPlan(a, h, a.lease.value.packet))
  }

  /** Space packet sequence counts are 14 bits wide. */
  function PacketCount(n: nat): nat {
    n % 16384
  }

  lemma NextPacketCount(n: nat)
    ensures PacketCount(n + 1) == NextCount(PacketCount(n))
  {
  }

  /** What each state says about the completed packets. */
  predicate StateInv(a: ActiveTransfer, h: History) {
    && (a.gateOpen <==> IsOpen(a.state))
    && (a.gateOpen ==> Advancing(a, h) && a.afterCooldown.None?)
    && OnWire(h.src, h.sent)
    && a.packetSequence == PacketCount(|h.sent|)
    && (a.state == ABORTING ==> a.afterCooldown == Some(SEND_FAILED))
    && (a.state == COOLDOWN ==> a.epochClosed && a.afterCooldown.Some? && IsTerminal(a.afterCooldown.value))
    && (a.state == SEND_COMPLETED || (a.state == COOLDOWN && a.afterCooldown == Some(SEND_COMPLETED)) ==> IsWholePlan(h.src, h.sent))
    && (a.state == SEND_CANCELED || (a.state == COOLDOWN && a.afterCooldown == Some(SEND_CANCELED)) ==> IsCanceled(h.src, h.sent))
  }

  predicate LedgerInv(c: Sender) {
    && (forall k :: k in c.history.issued ==> k < c.nextLease && c.history.issued[k].id == k)
    && c.history.completed <= c.history.issued.Keys
    && c.history.started == c.closed + (if c.active.Some? then {c.active.value.transferId} else {})
    && (c.active.Some? ==> (IsTerminal(c.active.value.state) <==> c.active.value.transferId in c.closed))
  }

  predicate Inv(c: Sender, disk: Disk) {
    && LedgerInv(c)
    && (c.active.Some? ==>
        && Describes(c.active.value, c.history, disk)
        && StateInv(c.active.value, c.history)
        && LeaseInv(c.active.value, c.history, c.nextLease))
  }

  lemma StartKeepsInv(c: Sender, id: int, product: ProductRef, seen: Option<Stamp>, again: Stamp, disk: Disk)
    requires Inv(c, disk) && Start(c, id, product, seen, again, disk).Ok?
    ensures Inv(Start(c, id, product, seen, again, disk).value, disk)
    ensures id !in c.history.started
  {
  }

  /** The packet chosen is the plan's next one, or the CANCEL that ends the plan early. */
  lemma NextPacketFollowsPlan(a: ActiveTransfer, h: History, looks: Looks, disk: Disk)
    requires Describes(a, h, disk) && StateInv(a, h)
    requires NextPacket(a, looks, disk).Ok? && NextPacket(a, looks, disk).value.Some?
    ensures a.gateOpen
    ensures var p := NextPacket(a, looks, disk).value.value;
      NextInPlan(if p.kind == CANCEL then a.(state := CANCEL_DRAINING) else a, h, p)
  {
    var size := |h.src.bundle|;
    if 0 < a.nextSequence {
      LastChunkEnds(size, a.nextSequence - 1);
    }
  }

  /** With an unchanged bundle file an uncanceled attempt always offers the plan's next packet. */
  lemma StableFileOffersPlanned(a: ActiveTransfer, h: History, disk: Disk)
    requires Describes(a, h, disk) && StateInv(a, h) && a.gateOpen
    requires a.state != CANCEL_REQUESTED || a.nextSequence == 0 || a.nextOffset == a.size
    ensures NextPacket(a, Looks(a.stamp, a.stamp, a.stamp), disk) == Ok(Some(Planned(h.src, |h.sent|)))
  {
    if 0 < a.nextSequence {
      LastChunkEnds(a.size, a.nextSequence - 1);
    }
  }

  lemma NextFrameKeepsInv(c: Sender, id: nat, looks: Looks, disk: Disk)
    requires Inv(c, disk) && NextFrame(c, id, looks, disk).Ok?
    ensures Inv(NextFrame(c, id, looks, disk).value, disk)
  {
    var a := c.active.value;
    if NextPacket(a, looks, disk).value.Some? {
      NextPacketFollowsPlan(a, c.history, looks, disk);
      hide Planned, CancelAt, IsPlanPrefix, IsCanceled, IsWholePlan, NextPacket;
    }
  }

  lemma DropLeaseKeepsInv(c: Sender, disk: Disk)
    requires Inv(c, disk)
    ensures Inv(DropLease(c), disk)
  {
    hide Planned, CancelAt, IsPlanPrefix, IsCanceled, IsWholePlan;
  }

  /** Counting the leased packet extends the plan prefix, or ends it. */
  lemma CountedPacketStaysOnPlan(a: ActiveTransfer, h: History, p: FilePacket)
    requires Advancing(a, h) && NextInPlan(a, h, p) && a.size == |h.src.bundle|
    ensures var sent := h.sent + [p];
      && OnWire(h.src, sent)
      && p.sequenceIndex + 1 == |sent|
      && (p.kind == END ==> IsWholePlan(h.src, sent))
      && (p.kind == CANCEL ==> IsCanceled(h.src, sent))
      && (p.kind == START || p.kind == DATA ==> IsPlanPrefix(h.src, sent) && |sent| < PlanSize(h.src))
      && (p.kind == START ==> a.nextOffset == Boundary(a.size, |sent| - 1))
      && (p.kind == DATA ==> p.offset + |p.payload| == Boundary(a.size, |sent| - 1))
  {
    var sent := h.sent + [p];
    assert sent[..|sent| - 1] == h.sent;
    if 0 < |h.sent| {
      LastChunkEnds(a.size, |h.sent| - 1);
    }
  }

  lemma CompletionKeepsState(a: ActiveTransfer, h: History, status: LinkStatus)
    requires StateInv(a, h) && a.size == |h.src.bundle|
    requires a.lease.Some? && (a.gateOpen || a.state == ABORTING)
    requires a.gateOpen ==> NextInPlan(a, h, a.lease.value.packet)
    ensures var counted := a.state != ABORTING && status.Accepted?;
      StateInv(AfterCompletion(a, a.lease.value, status),
               h.(sent := if counted then h.sent + [a.lease.value.packet] else h.sent))
  {
    if a.gateOpen && status.Accepted? {
      CountedPacketStaysOnPlan(a, h, a.lease.value.packet);
      NextPacketCount(|h.sent|);
    }
    hide PacketCount, NextCount, Planned, CancelAt, IsPlanPrefix, IsCanceled, IsWholePlan, OnWire, NextInPlan, ChunkCount, Boundary;
  }

  lemma CompleteKeepsInv(c: Sender, lease: Lease, status: LinkStatus, disk: Disk)
    requires Inv(c, disk)
    requires lease.id in c.history.issued && c.history.issued[lease.id] == lease
    ensures Inv(Complete(c, lease, status).0, disk)
    ensures Complete(c, lease, status).1 ==> lease.id !in c.history.completed
  {
    assert c.active.Some? ==> (c.active.value.gateOpen <==> IsOpen(c.active.value.state));
    hide StateInv, NextInPlan, OnWire, PlanSize;
    if OwnsLease(c, lease) {
      var a := c.active.value;
      assert a.lease.value == lease;
      assert StateInv(Complete(c, lease, status).0.active.value, Complete(c, lease, status).0.history) by {
        CompletionKeepsState(a, c.history, status);
        var counted := a.state != ABORTING && status.Accepted?;
        SentOnly(AfterCompletion(a, lease, status),
                 c.history.(sent := if counted then c.history.sent + [lease.packet] else c.history.sent),
                 Complete(c, lease, status).0.history);
      }
      LeaseGone(a, lease, status);
    }
  }

  /** The state invariant reads only the source and the completed packets. */
  lemma SentOnly(a: ActiveTransfer, h1: History, h2: History)
    requires StateInv(a, h1) && h1.src == h2.src && h1.sent == h2.sent
    ensures StateInv(a, h2)
  {
  }

  /** Completion consumes the lease and changes neither identity nor terminality. */
  lemma LeaseGone(a: ActiveTransfer, lease: Lease, status: LinkStatus)
    requires a.gateOpen || a.state == ABORTING
    requires a.gateOpen <==> IsOpen(a.state)
    ensures var b := AfterCompletion(a, lease, status);
      && b.lease.None? && b.transferId == a.transferId && !IsTerminal(b.state) && !IsTerminal(a.state)
      && b.stamp == a.stamp && b.size == a.size && b.checksum == a.checksum && b.sha == a.sha && Fields(b) == Fields(a)
  {
  }

  lemma ControlKeepsInv(c: Sender, id: nat, reason: string, required: nat, disk: Disk)
    requires Inv(c, disk)
    ensures Inv(Or(BeginAbort(c, id, reason), c), disk)
    ensures Inv(Or(CloseFence(c, id), c), disk)
    ensures Inv(Or(Tick(c, id, required), c), disk)
    ensures Inv(Or(RequestCancel(c, id), c), disk)
  {
    hide Planned, CancelAt, IsPlanPrefix, IsCanceled, IsWholePlan, OnWire;
  }

  lemma StepKeepsInv(c: Sender, ev: Event, disk: Disk, required: nat)
    requires Inv(c, disk)
    ensures Inv(Step(c, ev, disk, required), disk)
  {
    match ev
    case StartTransfer(id, product, seen, again) =>
      if Start(c, id, product, seen, again, disk).Ok? { StartKeepsInv(c, id, product, seen, again, disk); }
    case Next(id, looks) =>
      if NextFrame(c, id, looks, disk).Ok? { NextFrameKeepsInv(c, id, looks, disk); }
    case Enqueue(id, looks, admitted) =>
      if NextFrame(c, id, looks, disk).Ok? {
        NextFrameKeepsInv(c, id, looks, disk);
        DropLeaseKeepsInv(NextFrame(c, id, looks, disk).value, disk);
      }
    case Completion(lease, status) =>
      if lease.id in c.history.issued && c.history.issued[lease.id] == lease { CompleteKeepsInv(c, lease, status, disk); }
    case Abort(id, reason) => ControlKeepsInv(c, id, reason, required, disk);
    case Fence(id) => ControlKeepsInv(c, id, "", required, disk);
    case CooldownTick(id) => ControlKeepsInv(c, id, "", required, disk);
    case Cancel(id) => ControlKeepsInv(c, id, "", required, disk);
  }

  // ---------------------------------------------------------------- whole runs

  function Run(c: Sender, events: seq<Event>, disk: Disk, required: nat): Sender
    decreases |events|
  {
    if events == [] then c
    else Run(Step(c, events[0], disk, required), events[1..], disk, required)
  }

  /** Ids once started and leases once consumed stay on record. */
  lemma StepRemembers(c: Sender, ev: Event, disk: Disk, required: nat)
    requires Inv(c, disk)
    ensures var d := Step(c, ev, disk, required);
      && c.history.started <= d.history.started && c.history.completed <= d.history.completed
      && c.nextLease <= d.nextLease && c.nextAttempt <= d.nextAttempt
      && (forall k :: k in c.history.issued ==> k in d.history.issued && d.history.issued[k] == c.history.issued[k])
  {
    hide NextPacket, AfterCompletion, StateInv, LeaseInv, Describes, OnWire;
  }

  lemma {:induction false} RunRemembers(c: Sender, events: seq<Event>, disk: Disk, required: nat)
    requires Inv(c, disk)
    ensures var d := Run(c, events, disk, required);
      && Inv(d, disk)
      && c.history.started <= d.history.started && c.history.completed <= d.history.completed
      && (forall k :: k in c.history.issued ==> k in d.history.issued && d.history.issued[k] == c.history.issued[k])
    decreases |events|
  {
    hide Inv, Step;
    if events != [] {
      StepKeepsInv(c, events[0], disk, required);
      StepRemembers(c, events[0], disk, required);
      RunRemembers(Step(c, events[0], disk, required), events[1..], disk, required);
    }
  }

  /**
   After any calls whatever: the completed packets of the attempt are a prefix of START, the
   contiguous chunks and END, or such a prefix ended by one CANCEL; an attempt that reports
   SEND_COMPLETED has carried exactly the bundle; a closed attempt holds no lease.
   */
  lemma RunIsSafe(events: seq<Event>, disk: Disk, required: nat)
    ensures var c := Run(INITIAL, events, disk, required);
      c.active.Some? ==>
        var a, h := c.active.value, c.history;
        && h.src.bundle == disk.contents(a.stamp)
        && OnWire(h.src, h.sent)
        && (a.state == SEND_COMPLETED ==> IsWholePlan(h.src, h.sent) && DataOf(h.sent) == h.src.bundle)
        && (a.state == SEND_CANCELED ==> IsCanceled(h.src, h.sent))
        && (a.state == COOLDOWN || IsTerminal(a.state) ==> a.lease.None?)
  {
    RunRemembers(INITIAL, events, disk, required);
    var c := Run(INITIAL, events, disk, required);
    if c.active.Some? && c.active.value.state == SEND_COMPLETED {
      WholePlanCarriesBundle(c.history.src, c.history.sent);
    }
  }

  /** Whatever happens between two completions of the same lease, the second one is refused. */
  lemma LeaseCompletesOnce(c: Sender, lease: Lease, status: LinkStatus, events: seq<Event>, again: LinkStatus,
                           disk: Disk, required: nat)
    requires Inv(c, disk) && lease.id in c.history.issued && c.history.issued[lease.id] == lease
    requires Complete(c, lease, status).1
    ensures !Complete(Run(Complete(c, lease, status).0, events, disk, required), lease, again).1
  {
    CompleteKeepsInv(c, lease, status, disk);
    RunRemembers(Complete(c, lease, status).0, events, disk, required);
    hide StateInv, Describes, AfterCompletion, Run;
  }

  /** No transfer id is ever started twice. */
  lemma NoIdStartsTwice(c: Sender, id: int, product: ProductRef, seen: Option<Stamp>, stamp: Stamp, events: seq<Event>,
                        product2: ProductRef, seen2: Option<Stamp>, stamp2: Stamp, disk: Disk, required: nat)
    requires Inv(c, disk) && Start(c, id, product, seen, stamp, disk).Ok?
    ensures Start(Run(Start(c, id, product, seen, stamp, disk).value, events, disk, required), id, product2, seen2, stamp2, disk).Err?
  {
    StartKeepsInv(c, id, product, seen, stamp, disk);
    var begun := Start(c, id, product, seen, stamp, disk).value;
    RunRemembers(begun, events, disk, required);
    var later := Run(begun, events, disk, required);
    if Start(later, id, product2, seen2, stamp2, disk).Ok? {
      StartKeepsInv(later, id, product2, seen2, stamp2, disk);
    }
  }

  /** A finished attempt keeps its outcome and its packets until the next start. */
  lemma FinishedStaysFinished(c: Sender, ev: Event, disk: Disk, required: nat)
    requires Inv(c, disk) && c.active.Some? && IsTerminal(c.active.value.state) && !ev.StartTransfer?
    ensures Step(c, ev, disk, required).active == c.active
    ensures Step(c, ev, disk, required).history.sent == c.history.sent
  {
    hide OnWire, IsWholePlan, IsCanceled, Describes;
  }

  // ---------------------------------------------------------------- where the outcome differs from what was sent

  /**
   An abort that arrives while the cooldown is still running replaces the outcome, even when
   END has been accepted and the whole bundle is on the wire.
   */
  lemma AbortDuringCooldownFails(c: Sender, reason: string, disk: Disk, required: nat)
    requires Inv(c, disk) && c.active.Some? && c.active.value.state == COOLDOWN
    ensures var id := c.active.value.transferId;
      var aborted := Or(BeginAbort(c, id, reason), c);
      var fenced := Or(CloseFence(aborted, id), aborted);
      && fenced.active.value.state == COOLDOWN
      && Drained(fenced, required).active.value.state == SEND_FAILED
      && Drained(fenced, required).history.sent == c.history.sent
  {
  }

  predicate Aborts(c: Sender, ev: Event) {
    ev.Abort? && ActiveFor(c, ev.tid)
  }

  /** An abort of the active transfer comes while it is not over yet. */
  predicate AbortedInTime(c: Sender, events: seq<Event>, disk: Disk, required: nat)
    decreases |events|
  {
    && events != [] && c.active.Some? && !IsTerminal(c.active.value.state)
    && (Aborts(c, events[0]) || AbortedInTime(Step(c, events[0], disk, required), events[1..], disk, required))
  }

  /** The last packet has been accepted and the cooldown will report this outcome. */
  predicate Concluding(c: Sender, outcome: TransferState) {
    c.active.Some? && (c.active.value.state == outcome
                       || (c.active.value.state == COOLDOWN && c.active.value.afterCooldown == Some(outcome)))
  }

  predicate IsOutcome(outcome: TransferState) {
    outcome == SEND_COMPLETED || outcome == SEND_CANCELED
  }

  predicate Failing(c: Sender) {
    c.active.Some? && (c.active.value.state == SEND_FAILED
                       || ((c.active.value.state == COOLDOWN || c.active.value.state == ABORTING)
                           && c.active.value.afterCooldown == Some(SEND_FAILED)))
  }

  lemma FailingStays(c: Sender, ev: Event, disk: Disk, required: nat)
    requires Inv(c, disk) && Failing(c) && !ev.StartTransfer?
    ensures Failing(Step(c, ev, disk, required))
  {
    hide OnWire, IsWholePlan, IsCanceled, Describes;
  }

  lemma ConcludingStays(c: Sender, outcome: TransferState, ev: Event, disk: Disk, required: nat)
    requires Inv(c, disk) && IsOutcome(outcome) && Concluding(c, outcome) && !ev.StartTransfer?
    ensures var d := Step(c, ev, disk, required);
      if Aborts(c, ev) && !IsTerminal(c.active.value.state) then Failing(d) else Concluding(d, outcome)
  {
    hide OnWire, IsWholePlan, IsCanceled, Describes;
  }

  lemma {:induction false} FailingEnds(c: Sender, events: seq<Event>, disk: Disk, required: nat)
    requires Inv(c, disk) && Failing(c) && forall e :: e in events ==> !e.StartTransfer?
    ensures Failing(Run(c, events, disk, required))
    decreases |events|
  {
    hide Inv, Failing, Step;
    if events != [] {
      FailingStays(c, events[0], disk, required);
      StepKeepsInv(c, events[0], disk, required);
      FailingEnds(Step(c, events[0], disk, required), events[1..], disk, required);
    }
  }

  /** Once the last packet has been accepted, the decided outcome is reported exactly when no abort comes in time. */
  lemma {:induction false} ConcludedIffNotAborted(c: Sender, outcome: TransferState, events: seq<Event>, disk: Disk, required: nat)
    requires Inv(c, disk) && IsOutcome(outcome) && Concluding(c, outcome) && forall e :: e in events ==> !e.StartTransfer?
    ensures var d := Run(c, events, disk, required);
      && d.active.Some?
      && (IsTerminal(d.active.value.state) ==>
            d.active.value.state == (if AbortedInTime(c, events, disk, required) then SEND_FAILED else outcome))
    decreases |events|
  {
    hide Inv, Step;
    if events != [] {
      var d := Step(c, events[0], disk, required);
      ConcludingStays(c, outcome, events[0], disk, required);
      StepKeepsInv(c, events[0], disk, required);
      if Aborts(c, events[0]) && !IsTerminal(c.active.value.state) {
        FailingEnds(d, events[1..], disk, required);
      } else {
        ConcludedIffNotAborted(d, outcome, events[1..], disk, required);
        if IsTerminal(c.active.value.state) {
          FinishedStaysFinished(c, events[0], disk, required);
        }
      }
    }
  }

  /**
   Once END has been accepted the attempt, when it is over, reports SEND_COMPLETED exactly when
   no abort of it came before the cooldown had run out.
   */
  lemma CompletedIffNotAborted(c: Sender, events: seq<Event>, disk: Disk, required: nat)
    requires Inv(c, disk) && Concluding(c, SEND_COMPLETED) && forall e :: e in events ==> !e.StartTransfer?
    ensures var d := Run(c, events, disk, required);
      && d.active.Some?
      && (IsTerminal(d.active.value.state) ==>
            (d.active.value.state == SEND_COMPLETED <==> !AbortedInTime(c, events, disk, required)))
  {
    ConcludedIffNotAborted(c, SEND_COMPLETED, events, disk, required);
    hide Inv, Run, AbortedInTime;
  }

  // ---------------------------------------------------------------- when a transfer ends canceled

  /** The callback reports the attempt's CANCEL packet as accepted, and the attempt has not been aborted. */
  predicate AcceptsCancel(c: Sender, ev: Event) {
    && ev.Completion? && ev.lease.id in c.history.issued && c.history.issued[ev.lease.id] == ev.lease
    && OwnsLease(c, ev.lease) && ev.lease.packet.kind == CANCEL && ev.status.Accepted? && c.active.value.state != ABORTING
  }

  /** The CANCEL packet is accepted in the run, and no abort comes before it, nor before the cooldown is over. */
  predicate CanceledInTime(c: Sender, events: seq<Event>, disk: Disk, required: nat)
    decreases |events|
  {
    events != [] &&
      if AcceptsCancel(c, events[0]) then !AbortedInTime(Step(c, events[0], disk, required), events[1..], disk, required)
      else !Aborts(c, events[0]) && CanceledInTime(Step(c, events[0], disk, required), events[1..], disk, required)
  }

  predicate Sending(c: Sender) {
    c.active.Some? && IsOpen(c.active.value.state)
  }

  /** A step of an open attempt leaves it open, decides its outcome, or fails it; CANCEL decides for SEND_CANCELED. */
  lemma SendingSteps(c: Sender, ev: Event, disk: Disk, required: nat)
    requires Inv(c, disk) && Sending(c) && !ev.StartTransfer?
    ensures var d := Step(c, ev, disk, required);
      if AcceptsCancel(c, ev) then Concluding(d, SEND_CANCELED) && !IsTerminal(d.active.value.state)
      else if Aborts(c, ev) then Failing(d)
      else Sending(d) || Failing(d) || Concluding(d, SEND_COMPLETED)
  {
    hide OnWire, IsWholePlan, IsCanceled, Describes, NextPacket, NextCount, IsPlanPrefix, Planned, NextInPlan, Advancing;
  }

  /** An attempt that is failing, or has sent END, accepts no CANCEL any more. */
  lemma {:induction false} TooLateToCancel(c: Sender, events: seq<Event>, disk: Disk, required: nat)
    requires Inv(c, disk) && (Failing(c) || Concluding(c, SEND_COMPLETED)) && forall e :: e in events ==> !e.StartTransfer?
    ensures !CanceledInTime(c, events, disk, required)
    decreases |events|
  {
    if events != [] {
      NoCancelLease(c, disk);
      hide Inv, Step, Failing, Concluding;
      StepKeepsInv(c, events[0], disk, required);
      if Failing(c) {
        FailingStays(c, events[0], disk, required);
      } else {
        ConcludingStays(c, SEND_COMPLETED, events[0], disk, required);
      }
      TooLateToCancel(Step(c, events[0], disk, required), events[1..], disk, required);
    }
  }

  lemma NoCancelLease(c: Sender, disk: Disk)
    requires Inv(c, disk) && (Failing(c) || Concluding(c, SEND_COMPLETED))
    ensures c.active.value.state == ABORTING || c.active.value.lease.None?
  {
  }

  /**
   An open attempt that is over at the end of a run reports SEND_CANCELED exactly when its CANCEL
   packet was accepted in time: before any abort, and with none before the cooldown was over.
   */
  lemma {:induction false} CanceledIffAccepted(c: Sender, events: seq<Event>, disk: Disk, required: nat)
    requires Inv(c, disk) && Sending(c) && forall e :: e in events ==> !e.StartTransfer?
    ensures var d := Run(c, events, disk, required);
      && d.active.Some?
      && (IsTerminal(d.active.value.state) ==>
            (d.active.value.state == SEND_CANCELED <==> CanceledInTime(c, events, disk, required)))
    decreases |events|
  {
    hide Inv, Step;
    if events != [] {
      var d, rest := Step(c, events[0], disk, required), events[1..];
      SendingSteps(c, events[0], disk, required);
      StepKeepsInv(c, events[0], disk, required);
      if AcceptsCancel(c, events[0]) {
        ConcludedIffNotAborted(d, SEND_CANCELED, rest, disk, required);
      } else if Sending(d) {
        hide AcceptsCancel;
        CanceledIffAccepted(d, rest, disk, required);
        if Aborts(c, events[0]) { FailingIsNotSending(d); }
      } else {
        hide AcceptsCancel;
        TooLateToCancel(d, rest, disk, required);
        if Failing(d) {
          FailingEnds(d, rest, disk, required);
        } else {
          ConcludedIffNotAborted(d, SEND_COMPLETED, rest, disk, required);
        }
      }
    }
  }

  lemma FailingIsNotSending(c: Sender)
    ensures !(Failing(c) && Sending(c))
  {
  }

  // ---------------------------------------------------------------- when a call takes effect

  /** The bundle is there, fits, is as large as its stamp says, and was not touched while it was read. */
  predicate Readable(seen: Option<Stamp>, again: Stamp, disk: Disk) {
    seen.Some? && seen.value.size <= U32_MAX && again == seen.value && |disk.contents(seen.value)| == seen.value.size
  }

  predicate IsIdle(c: Sender) {
    c.active.Some? ==> IsTerminal(c.active.value.state)
  }

  /**
   A transfer starts exactly under a valid id that was never started, when no other is under way
   and the bundle is readable. It then has the next attempt number and nothing sent.
   */
  lemma StartsIff(c: Sender, id: int, product: ProductRef, seen: Option<Stamp>, again: Stamp, disk: Disk)
    requires Inv(c, disk)
    ensures var r := Start(c, id, product, seen, again, disk);
      && (r.Ok? <==> 0 <= id <= U32_MAX && id !in c.history.started && IsIdle(c) && Readable(seen, again, disk))
      && (r.Ok? ==>
            && r.value.active.Some? && r.value.history.sent == [] && r.value.history.started == c.history.started + {id}
            && r.value.nextAttempt == c.nextAttempt + 1 && r.value.nextLease == c.nextLease && r.value.closed == c.closed
            && Describes(r.value.active.value, r.value.history, disk)
            && var a := r.value.active.value;
            && a.transferId == id && a.product == product && a.attempt == c.nextAttempt && a.stamp == seen.value
            && a.state == SENDING && a.gateOpen && a.lease.None? && a.nextSequence == 0 && a.nextOffset == 0 && a.packetSequence == 0
            && a.cooldownTicks == 0 && a.abortReason.None?)
  {
    assert LedgerInv(c);
    hide StateInv, LeaseInv;
  }

  /** Why a start is refused, in the order of the checks. */
  lemma StartRefusals(c: Sender, id: int, product: ProductRef, seen: Option<Stamp>, again: Stamp, disk: Disk)
    ensures var r := Start(c, id, product, seen, again, disk);
      && (r == Err(BadTransferId) <==> id < 0 || id > U32_MAX)
      && (r == Err(Busy) <==> 0 <= id <= U32_MAX && !IsIdle(c))
      && (r == Err(Retired) <==> 0 <= id <= U32_MAX && IsIdle(c) && id in c.closed)
      && (r == Err(BundleMissing) <==> 0 <= id <= U32_MAX && IsIdle(c) && id !in c.closed && seen.None?)
      && (r == Err(TooLarge) <==> 0 <= id <= U32_MAX && IsIdle(c) && id !in c.closed && seen.Some? && seen.value.size > U32_MAX)
  {
  }

  /** All that is left has to be read from the file for the next packet. */
  predicate NeedsData(a: ActiveTransfer) {
    0 < a.nextSequence && a.nextOffset < a.size && a.state != CANCEL_REQUESTED
  }

  /**
   The file is looked at before every packet, and before and after every read: a packet is offered
   exactly when the gate is open and no look shows another stamp.
   */
  lemma OffersIff(a: ActiveTransfer, h: History, looks: Looks, disk: Disk)
    requires Describes(a, h, disk) && StateInv(a, h)
    ensures NextPacket(a, looks, disk) == Ok(None) <==> !IsOpen(a.state)
    ensures NextPacket(a, looks, disk) == Err(BundleMutated) <==>
      IsOpen(a.state) && (looks.first != a.stamp || (NeedsData(a) && (looks.second != a.stamp || looks.third != a.stamp)))
    ensures NextPacket(a, looks, disk).Err? ==> NextPacket(a, looks, disk).error == BundleMutated
  {
    if 0 < a.nextSequence && IsOpen(a.state) {
      LastChunkEnds(|h.src.bundle|, a.nextSequence - 1);
    }
    hide OnWire, IsWholePlan, IsCanceled, IsPlanPrefix;
  }

  /** A frame is reserved only for the active id with none in flight; the lease is new and carries the packet offered. */
  lemma ReservesIff(c: Sender, id: nat, looks: Looks, disk: Disk)
    requires Inv(c, disk)
    ensures var r := NextFrame(c, id, looks, disk);
      && (r == Err(NotActive) <==> !ActiveFor(c, id))
      && (r == Err(FrameInFlight) <==> ActiveFor(c, id) && c.active.value.lease.Some?)
      && (ActiveFor(c, id) && c.active.value.lease.None? && NextPacket(c.active.value, looks, disk).Ok? ==>
            r.Ok? && r.value.active.Some? &&
            match NextPacket(c.active.value, looks, disk).value
            case None => r.value == c
            case Some(p) =>
              && r.value.active.value.lease == Some(Lease(c.active.value.attempt, c.nextLease, id, p))
              && c.nextLease !in c.history.issued && r.value.nextLease == c.nextLease + 1
              && r.value.active.value.state == (if p.kind == CANCEL then CANCEL_DRAINING else c.active.value.state)
              && r.value.history.sent == c.history.sent)
  {
    if c.active.Some? {
      assert StateInv(c.active.value, c.history) && Describes(c.active.value, c.history, disk);
      OffersIff(c.active.value, c.history, looks, disk);
    }
    assert LedgerInv(c);
    hide StateInv, LeaseInv, Describes, NextPacket;
  }

  /** A refused packet, or any while aborting, is not counted; a refusal fails the attempt for that reason. */
  lemma UncountedCompletion(c: Sender, lease: Lease, status: LinkStatus, disk: Disk)
    requires Inv(c, disk) && c.active.Some? && c.active.value.lease == Some(lease)
    requires c.active.value.state == ABORTING || status.Refused?
    ensures var (d, taken) := Complete(c, lease, status);
      var a := c.active.value;
      && taken && d.history == c.history.(completed := c.history.completed + {lease.id})
      && d.active == Some(if a.state == ABORTING then a.(lease := None)
                          else a.(lease := None, gateOpen := false, afterCooldown := Some(SEND_FAILED), state := ABORTING,
                                  abortReason := Some("LINK_" + status.code)))
  {
    assert LeaseInv(c.active.value, c.history, c.nextLease);
    hide StateInv, NextInPlan, Describes;
  }

  /** What an accepted packet does to the attempt. */
  predicate MovedOn(a: ActiveTransfer, b: ActiveTransfer, kind: PacketType, sent: nat) {
    && b.lease.None?
    && if kind == START || kind == DATA then
         b.state == a.state && b.gateOpen && b.nextSequence == sent && 0 < sent && b.nextOffset == Boundary(a.size, sent - 1)
       else
         b.state == COOLDOWN && !b.gateOpen && b.epochClosed && b.afterCooldown == Some(if kind == END then SEND_COMPLETED else SEND_CANCELED)
  }

  lemma AcceptedMoves(a: ActiveTransfer, lease: Lease, sent: nat)
    requires a.state != ABORTING && a.gateOpen && lease.packet.sequenceIndex + 1 == sent
    requires lease.packet.kind == START ==> a.nextOffset == Boundary(a.size, sent - 1)
    requires lease.packet.kind == DATA ==> lease.packet.offset + |lease.packet.payload| == Boundary(a.size, sent - 1)
    ensures MovedOn(a, AfterCompletion(a, lease, Accepted), lease.packet.kind, sent)
  {
    hide Boundary, NextCount;
  }

  /** The packet in flight of an open attempt is the one that comes next, and where it leaves the plan. */
  lemma OpenLeaseIsNext(c: Sender, disk: Disk)
    requires Inv(c, disk) && c.active.Some? && c.active.value.lease.Some? && c.active.value.state != ABORTING
    ensures var a, p := c.active.value, c.active.value.lease.value.packet;
      && a.gateOpen && a.lease.value.attempt == a.attempt && a.lease.value.transferId == a.transferId
      && p.sequenceIndex == |c.history.sent|
      && (p.kind == START ==> a.nextOffset == Boundary(a.size, |c.history.sent|))
      && (p.kind == DATA ==> p.offset + |p.payload| == Boundary(a.size, |c.history.sent|))
  {
    var a, h := c.active.value, c.history;
    assert Describes(a, h, disk) && StateInv(a, h) && LeaseInv(a, h, c.nextLease);
    assert Advancing(a, h) && NextInPlan(a, h, a.lease.value.packet);
    CountedPacketStaysOnPlan(a, h, a.lease.value.packet);
    hide Inv, StateInv, LeaseInv, Describes, NextInPlan, OnWire, IsWholePlan, IsCanceled, IsPlanPrefix, Boundary, PlanSize, Advancing;
    assert |h.sent + [a.lease.value.packet]| == |h.sent| + 1;
  }

  /** An accepted packet is counted, and the attempt moves to the next one or to the cooldown that its last packet decides. */
  lemma CountedCompletion(c: Sender, lease: Lease, disk: Disk)
    requires Inv(c, disk) && c.active.Some? && c.active.value.lease == Some(lease) && c.active.value.state != ABORTING
    ensures var (d, taken) := Complete(c, lease, Accepted);
      && taken && d.history == c.history.(sent := c.history.sent + [lease.packet], completed := c.history.completed + {lease.id})
      && d.active.Some? && MovedOn(c.active.value, d.active.value, lease.packet.kind, |d.history.sent|)
  {
    OpenLeaseIsNext(c, disk);
    hide Inv, Boundary, MovedOn, AfterCompletion;
    AcceptedMoves(c.active.value, lease, |c.history.sent| + 1);
  }

  /** An abort is for the active id; a finished attempt stays, any other shuts its gate and starts aborting for that reason. */
  lemma AbortOutcome(c: Sender, id: nat, reason: string)
    ensures var r := BeginAbort(c, id, reason);
      && (r.Err? <==> !ActiveFor(c, id)) && (r.Err? ==> r.error == NotActive)
      && (r.Ok? ==>
            if IsTerminal(c.active.value.state) then r.value == c
            else r.value == c.(active := Some(c.active.value.(gateOpen := false, afterCooldown := Some(SEND_FAILED), state := ABORTING,
                                                              abortReason := Some(reason)))))
  {
  }

  /** The abort fence closes exactly for an aborting attempt whose last buffer is back. */
  lemma FenceClosesIff(c: Sender, id: nat)
    ensures var r := CloseFence(c, id);
      && (r.Ok? <==> ActiveFor(c, id) && c.active.value.state == ABORTING && c.active.value.lease.None?)
      && (r.Ok? ==> r.value == c.(active := Some(c.active.value.(epochClosed := true, state := COOLDOWN))))
      && (r.Err? ==> r.error == if !ActiveFor(c, id) then NotActive else if c.active.value.state != ABORTING then NotAborting else BufferInFlight)
  {
  }

  // ---------------------------------------------------------------- a cancel takes effect

  /** START is out, DATA is left, and nothing is in flight. */
  predicate MidTransfer(c: Sender) {
    && c.active.Some? && c.active.value.state == SENDING && c.active.value.lease.None?
    && 0 < c.active.value.nextSequence && c.active.value.nextOffset < c.active.value.size
  }

  function Unchanged(c: Sender): Looks
    requires c.active.Some?
  {
    Looks(c.active.value.stamp, c.active.value.stamp, c.active.value.stamp)
  }

  /** A cancel is answered by the attempt's state, and in the middle of a transfer the next packet offered is CANCEL. */
  lemma CancelIsOfferedNext(c: Sender, disk: Disk, required: nat)
    requires Inv(c, disk) && MidTransfer(c)
    ensures var d := Step(c, Cancel(c.active.value.transferId), disk, required);
      && d.active.Some? && d.active.value.state == CANCEL_REQUESTED && d.active.value.lease.None?
      && d == c.(active := d.active) && d.active.value == c.active.value.(state := CANCEL_REQUESTED)
      && 0 < |c.history.sent|
      && NextPacket(d.active.value, Unchanged(c), disk) == Ok(Some(CancelAt(c.history.src, |c.history.sent|)))
  {
    hide OnWire, IsWholePlan, IsCanceled, ReadData, IsPlanPrefix;
  }

  /** The CANCEL packet is reserved under the next lease. */
  lemma CancelIsReserved(c: Sender, disk: Disk, required: nat)
    requires Inv(c, disk) && MidTransfer(c)
    ensures 0 < |c.history.sent|
    ensures var a := c.active.value;
      var d := Step(Step(c, Cancel(a.transferId), disk, required), Next(a.transferId, Unchanged(c)), disk, required);
      var lease := Lease(a.attempt, c.nextLease, a.transferId, CancelAt(c.history.src, |c.history.sent|));
      && d.active == Some(a.(state := CANCEL_DRAINING, lease := Some(lease)))
      && d.history == c.history.(issued := c.history.issued[c.nextLease := lease])
  {
    CancelIsOfferedNext(c, disk, required);
    hide Inv, NextPacket;
  }

  /** What the run below leaves behind once CANCEL is accepted. */
  lemma CancelIsAccepted(c: Sender, lease: Lease, disk: Disk, required: nat)
    requires Inv(c, disk) && c.active.Some? && c.active.value.state == CANCEL_DRAINING && c.active.value.lease == Some(lease)
    requires lease.packet.kind == CANCEL
    ensures var d := Step(c, Completion(lease, Accepted), disk, required);
      && d.active.Some? && d.active.value.state == COOLDOWN && d.active.value.afterCooldown == Some(SEND_CANCELED)
      && d.active.value.transferId == c.active.value.transferId
      && d.history.src == c.history.src && d.history.sent == c.history.sent + [lease.packet]
  {
    hide OnWire, IsWholePlan, IsCanceled, Describes, IsPlanPrefix, NextInPlan, Advancing;
  }

  function Ticks(id: nat, n: nat): seq<Event> {
    seq(n, _ => CooldownTick(id))
  }

  /** Enough ticks end the cooldown in the decided outcome. */
  lemma {:induction false} TicksConclude(c: Sender, outcome: TransferState, n: nat, disk: Disk, required: nat)
    requires Inv(c, disk) && c.active.Some? && c.active.value.state == COOLDOWN && c.active.value.afterCooldown == Some(outcome)
    requires 0 < n && required <= c.active.value.cooldownTicks + n
    ensures var d := Run(c, Ticks(c.active.value.transferId, n), disk, required);
      && d.active.Some? && d.active.value.state == outcome && d.active.value.transferId in d.closed
      && d.active.value.transferId == c.active.value.transferId && d.history == c.history
    decreases n
  {
    var id := c.active.value.transferId;
    var d := Step(c, CooldownTick(id), disk, required);
    assert Ticks(id, n)[1..] == Ticks(id, n - 1) && Ticks(id, n)[0] == CooldownTick(id);
    StepKeepsInv(c, CooldownTick(id), disk, required);
    OneTick(c, disk, required);
    hide Inv, Step;
    if d.active.value.state == COOLDOWN {
      TicksConclude(d, outcome, n - 1, disk, required);
    } else {
      TicksIdle(d, n - 1, disk, required);
    }
  }

  lemma OneTick(c: Sender, disk: Disk, required: nat)
    requires Inv(c, disk) && c.active.Some? && c.active.value.state == COOLDOWN
    ensures var d := Step(c, CooldownTick(c.active.value.transferId), disk, required);
      && d.active.Some? && d.active.value.transferId == c.active.value.transferId && d.history == c.history
      && (if c.active.value.cooldownTicks + 1 < required
          then d.active == Some(c.active.value.(cooldownTicks := c.active.value.cooldownTicks + 1)) && d.closed == c.closed
          else Some(d.active.value.state) == c.active.value.afterCooldown && d.closed == c.closed + {c.active.value.transferId})
  {
    hide OnWire, IsWholePlan, IsCanceled, Describes;
  }

  /** After the cooldown ticks do nothing. */
  lemma {:induction false} TicksIdle(c: Sender, n: nat, disk: Disk, required: nat)
    requires c.active.Some? && c.active.value.state != COOLDOWN
    ensures Run(c, Ticks(c.active.value.transferId, n), disk, required) == c
    decreases n
  {
    if 0 < n {
      var id := c.active.value.transferId;
      assert Ticks(id, n)[1..] == Ticks(id, n - 1) && Ticks(id, n)[0] == CooldownTick(id);
      TicksIdle(c, n - 1, disk, required);
    }
  }

  /** With fewer ticks than the cooldown needs the attempt is not over. */
  lemma {:induction false} TooFewTicks(c: Sender, n: nat, disk: Disk, required: nat)
    requires Inv(c, disk) && c.active.Some? && c.active.value.state == COOLDOWN
    requires c.active.value.cooldownTicks + n < required
    ensures var d := Run(c, Ticks(c.active.value.transferId, n), disk, required);
      d == c.(active := Some(c.active.value.(cooldownTicks := c.active.value.cooldownTicks + n)))
    decreases n
  {
    if 0 < n {
      var id := c.active.value.transferId;
      var d := Step(c, CooldownTick(id), disk, required);
      assert Ticks(id, n)[1..] == Ticks(id, n - 1) && Ticks(id, n)[0] == CooldownTick(id);
      StepKeepsInv(c, CooldownTick(id), disk, required);
      assert d == c.(active := Some(c.active.value.(cooldownTicks := c.active.value.cooldownTicks + 1)));
      hide Inv, Step;
      TooFewTicks(d, n - 1, disk, required);
    }
  }

  /** The fence of an aborting attempt, and the ticks after it. */
  function FenceRun(id: nat, required: nat): seq<Event> {
    [Fence(id)] + Ticks(id, required)
  }

  /** An aborting attempt with nothing in flight ends SEND_FAILED once the fence is closed and the cooldown over; what was sent stays. */
  lemma AbortEndsFailed(c: Sender, disk: Disk, required: nat)
    requires Inv(c, disk) && c.active.Some? && c.active.value.state == ABORTING && c.active.value.lease.None? && 0 < required
    ensures var d := Run(c, FenceRun(c.active.value.transferId, required), disk, required);
      && d.active.Some? && d.active.value.state == SEND_FAILED && d.active.value.abortReason == c.active.value.abortReason
      && d.active.value.transferId in d.closed && d.history == c.history
  {
    var id := c.active.value.transferId;
    FenceClosesIff(c, id);
    var d := Step(c, Fence(id), disk, required);
    assert StateInv(c.active.value, c.history);
    StepKeepsInv(c, Fence(id), disk, required);
    hide Inv, Run, Ticks, StateInv;
    TicksConclude(d, SEND_FAILED, required, disk, required);
    TicksKeepReason(d, required, disk, required);
    RunFirst(c, Fence(id), Ticks(id, required), disk, required);
  }

  lemma {:induction false} TicksKeepReason(c: Sender, n: nat, disk: Disk, required: nat)
    requires c.active.Some?
    ensures var d := Run(c, Ticks(c.active.value.transferId, n), disk, required);
      d.active.Some? && d.active.value.abortReason == c.active.value.abortReason
    decreases n
  {
    if 0 < n {
      var id := c.active.value.transferId;
      assert Ticks(id, n)[1..] == Ticks(id, n - 1) && Ticks(id, n)[0] == CooldownTick(id);
      TicksKeepReason(Step(c, CooldownTick(id), disk, required), n - 1, disk, required);
    }
  }

  /** Cancel, reserve, acceptance, and the ticks of the cooldown. */
  function CancelRun(c: Sender, required: nat): seq<Event>
    requires c.active.Some? && 0 < |c.history.sent|
  {
    var a := c.active.value;
    var lease := Lease(a.attempt, c.nextLease, a.transferId, CancelAt(c.history.src, |c.history.sent|));
    [Cancel(a.transferId)] + ([Next(a.transferId, Unchanged(c))] + ([Completion(lease, Accepted)] + Ticks(a.transferId, required)))
  }

  lemma RunFirst(c: Sender, ev: Event, rest: seq<Event>, disk: Disk, required: nat)
    ensures Run(c, [ev] + rest, disk, required) == Run(Step(c, ev, disk, required), rest, disk, required)
  {
    assert ([ev] + rest)[1..] == rest;
    hide Step;
  }

  /**
   In the middle of a transfer, with the file unchanged and every packet accepted, a cancel ends the
   attempt as SEND_CANCELED: the packets are those sent before it and one CANCEL.
   */
  lemma CancelEndsCanceled(c: Sender, disk: Disk, required: nat)
    requires Inv(c, disk) && MidTransfer(c) && 0 < required
    ensures 0 < |c.history.sent|
    ensures var d := Run(c, CancelRun(c, required), disk, required);
      && d.active.Some? && d.active.value.state == SEND_CANCELED && d.active.value.transferId == c.active.value.transferId
      && d.history.src == c.history.src && d.history.sent == c.history.sent + [CancelAt(c.history.src, |c.history.sent|)]
      && IsCanceled(d.history.src, d.history.sent)
  {
    var a := c.active.value;
    CancelIsReserved(c, disk, required);
    var lease := Lease(a.attempt, c.nextLease, a.transferId, CancelAt(c.history.src, |c.history.sent|));
    var one := Step(c, Cancel(a.transferId), disk, required);
    var two := Step(one, Next(a.transferId, Unchanged(c)), disk, required);
    var three := Step(two, Completion(lease, Accepted), disk, required);
    hide Inv, Step, Run, MidTransfer, Ticks, IsCanceled;
    StepKeepsInv(c, Cancel(a.transferId), disk, required);
    StepKeepsInv(one, Next(a.transferId, Unchanged(c)), disk, required);
    StepKeepsInv(two, Completion(lease, Accepted), disk, required);
    CancelIsAccepted(two, lease, disk, required);
    TicksConclude(three, SEND_CANCELED, required, disk, required);
    var ticks := Ticks(a.transferId, required);
    RunFirst(c, Cancel(a.transferId), [Next(a.transferId, Unchanged(c))] + ([Completion(lease, Accepted)] + ticks), disk, required);
    RunFirst(one, Next(a.transferId, Unchanged(c)), [Completion(lease, Accepted)] + ticks, disk, required);
    RunFirst(two, Completion(lease, Accepted), ticks, disk, required);
    RunRemembers(three, ticks, disk, required);
    CanceledMeansCanceled(Run(three, ticks, disk, required), disk);
  }

  lemma CanceledMeansCanceled(c: Sender, disk: Disk)
    requires Inv(c, disk) && c.active.Some? && c.active.value.state == SEND_CANCELED
    ensures IsCanceled(c.history.src, c.history.sent)
  {
  }

  /** No CANCEL packet is outstanding, none has been accepted and none will be offered. */
  predicate CancelIsLost(c: Sender) {
    && c.active.Some?
    && c.active.value.state != SENDING && c.active.value.state != CANCEL_REQUESTED
    && !Concluding(c, SEND_CANCELED)
    && (c.active.value.lease.Some? && c.active.value.state == CANCEL_DRAINING ==> c.active.value.lease.value.packet.kind != CANCEL)
  }

  lemma LostCancelStaysLost(c: Sender, ev: Event, disk: Disk, required: nat)
    requires Inv(c, disk) && CancelIsLost(c) && !ev.StartTransfer?
    ensures CancelIsLost(Step(c, ev, disk, required))
  {
    hide OnWire, IsWholePlan, IsCanceled, Describes, IsPlanPrefix, Planned, NextInPlan, Advancing, ReadData, NextCount;
  }

  /** Once its CANCEL packet has been dropped an attempt can only end SEND_COMPLETED or SEND_FAILED. */
  lemma {:induction false} LostCancelNeverCancels(c: Sender, events: seq<Event>, disk: Disk, required: nat)
    requires Inv(c, disk) && CancelIsLost(c) && forall e :: e in events ==> !e.StartTransfer?
    ensures var d := Run(c, events, disk, required);
      && d.active.Some? && d.active.value.state != SEND_CANCELED
      && (IsTerminal(d.active.value.state) ==> d.active.value.state == SEND_COMPLETED || d.active.value.state == SEND_FAILED)
    decreases |events|
  {
    hide Inv, Step;
    if events != [] {
      hide CancelIsLost;
      LostCancelStaysLost(c, events[0], disk, required);
      StepKeepsInv(c, events[0], disk, required);
      LostCancelNeverCancels(Step(c, events[0], disk, required), events[1..], disk, required);
    }
  }

  /**
   A CANCEL packet the queue refuses is not offered again: the next packet is DATA, and whatever
   follows, the attempt never ends SEND_CANCELED.
   */
  lemma RefusedCancelResumesData(c: Sender, looks: Looks, again: Looks, events: seq<Event>, disk: Disk, required: nat)
    requires Inv(c, disk) && c.active.Some? && c.active.value.state == CANCEL_REQUESTED && c.active.value.lease.None?
    requires 0 < c.active.value.nextSequence && c.active.value.nextOffset < c.active.value.size
    requires looks.first == c.active.value.stamp
    requires again == Looks(c.active.value.stamp, c.active.value.stamp, c.active.value.stamp)
    requires forall e :: e in events ==> !e.StartTransfer?
    ensures var id := c.active.value.transferId;
      var d := Step(c, Enqueue(id, looks, false), disk, required);
      && d.active.Some? && d.active.value.state == CANCEL_DRAINING && d.active.value.lease.None?
      && NextPacket(d.active.value, again, disk) == Ok(Some(Planned(c.history.src, |c.history.sent|)))
      && Planned(c.history.src, |c.history.sent|).kind == DATA
      && Run(d, events, disk, required).active.Some? && Run(d, events, disk, required).active.value.state != SEND_CANCELED
  {
    var ev := Enqueue(c.active.value.transferId, looks, false);
    RefusedCancelStep(c, looks, again, disk, required);
    StepKeepsInv(c, ev, disk, required);
    hide Inv, Step, NextPacket, Planned, Run;
    LostCancelNeverCancels(Step(c, ev, disk, required), events, disk, required);
  }

  lemma RefusedCancelStep(c: Sender, looks: Looks, again: Looks, disk: Disk, required: nat)
    requires Inv(c, disk) && c.active.Some? && c.active.value.state == CANCEL_REQUESTED && c.active.value.lease.None?
    requires 0 < c.active.value.nextSequence && c.active.value.nextOffset < c.active.value.size
    requires looks.first == c.active.value.stamp
    requires again == Looks(c.active.value.stamp, c.active.value.stamp, c.active.value.stamp)
    ensures var id := c.active.value.transferId;
      var d := Step(c, Enqueue(id, looks, false), disk, required);
      && d.active.Some? && d.active.value.state == CANCEL_DRAINING && d.active.value.lease.None?
      && NextPacket(d.active.value, again, disk) == Ok(Some(Planned(c.history.src, |c.history.sent|)))
      && Planned(c.history.src, |c.history.sent|).kind == DATA
  {
    var a, h := c.active.value, c.history;
    LastChunkEnds(a.size, a.nextSequence - 1);
    StableFileOffersPlanned(a.(state := CANCEL_DRAINING), h, disk);
    hide Planned, IsWholePlan, IsCanceled, OnWire, ReadData;
  }

  // ---------------------------------------------------------------- a whole file is sent

  /** A transfer that goes on, with nothing in flight. */
  predicate Ongoing(c: Sender) {
    c.active.Some? && c.active.value.state == SENDING && c.active.value.lease.None?
  }

  /** The next packet of the plan, as it is leased. */
  function PlannedLease(c: Sender): Lease
    requires c.active.Some?
  {
    Lease(c.active.value.attempt, c.nextLease, c.active.value.transferId, Planned(c.history.src, |c.history.sent|))
  }

  /** The queue takes the next packet and the link accepts it. */
  function SendNext(c: Sender): seq<Event>
    requires c.active.Some?
  {
    [Enqueue(c.active.value.transferId, Unchanged(c), true), Completion(PlannedLease(c), Accepted)]
  }

  lemma PlannedIsTaken(c: Sender, disk: Disk, required: nat)
    requires Inv(c, disk) && Ongoing(c)
    ensures var d := Step(c, SendNext(c)[0], disk, required);
      && d == c.(active := d.active, nextLease := c.nextLease + 1, history := d.history)
      && d.active == Some(c.active.value.(lease := Some(PlannedLease(c))))
      && d.history == c.history.(issued := c.history.issued[c.nextLease := PlannedLease(c)])
  {
    StableFileOffersPlanned(c.active.value, c.history, disk);
    hide Inv, NextPacket;
    assert Planned(c.history.src, |c.history.sent|).kind != CANCEL;
    hide Planned;
  }

  lemma PlannedKinds(src: Source, i: nat)
    requires i < PlanSize(src)
    ensures Planned(src, i).kind == if i == 0 then START else if i == PlanSize(src) - 1 then END else DATA
  {
  }

  lemma CompletionKeepsNames(c: Sender, lease: Lease)
    requires c.active.Some?
    ensures var d := Complete(c, lease, Accepted).0;
      && d.active.Some? && d.active.value.attempt == c.active.value.attempt && d.active.value.transferId == c.active.value.transferId
      && d.active.value.stamp == c.active.value.stamp && d.nextLease == c.nextLease
  {
  }

  lemma OngoingIsWithinPlan(c: Sender, disk: Disk)
    requires Inv(c, disk) && Ongoing(c)
    ensures |c.history.sent| < PlanSize(c.history.src)
  {
    assert Advancing(c.active.value, c.history);
    hide Describes, LeaseInv;
  }

  /** Queued and accepted, the packet counts, and the last one starts the cooldown of a completed transfer. */
  lemma NextIsSent(c: Sender, disk: Disk, required: nat)
    requires Inv(c, disk) && Ongoing(c)
    ensures |c.history.sent| < PlanSize(c.history.src)
    ensures var d := Run(c, SendNext(c), disk, required);
      && Inv(d, disk) && d.active.Some? && d.active.value.lease.None?
      && d.active.value.attempt == c.active.value.attempt && d.active.value.transferId == c.active.value.transferId
      && d.active.value.stamp == c.active.value.stamp && d.nextLease == c.nextLease + 1
      && d.history.src == c.history.src && d.history.sent == c.history.sent + [Planned(c.history.src, |c.history.sent|)]
      && (if |d.history.sent| < PlanSize(c.history.src) then d.active.value.state == SENDING
          else d.active.value.state == COOLDOWN && d.active.value.afterCooldown == Some(SEND_COMPLETED))
  {
    var events, lease := SendNext(c), PlannedLease(c);
    OngoingIsWithinPlan(c, disk);
    PlannedIsTaken(c, disk, required);
    PlannedKinds(c.history.src, |c.history.sent|);
    var one := Step(c, events[0], disk, required);
    StepKeepsInv(c, events[0], disk, required);
    hide Inv, Planned, PlanSize, Boundary;
    CountedCompletion(one, lease, disk);
    CompletionKeepsNames(one, lease);
    StepKeepsInv(one, events[1], disk, required);
    var two := Step(one, events[1], disk, required);
    assert two == Complete(one, lease, Accepted).0;
    hide Step, Complete, SendNext;
    assert events == [events[0]] + ([events[1]] + []);
    RunFirst(c, events[0], [events[1]] + [], disk, required);
    RunFirst(one, events[1], [], disk, required);
    assert Run(two, [], disk, required) == two;
  }

  /** The sends of all packets still to come, each leased in turn. */
  function SendRest(attempt: nat, id: nat, looks: Looks, lease: nat, src: Source, i: nat): seq<Event>
    decreases PlanSize(src) - i
  {
    if PlanSize(src) <= i then []
    else [Enqueue(id, looks, true), Completion(Lease(attempt, lease, id, Planned(src, i)), Accepted)]
         + SendRest(attempt, id, looks, lease + 1, src, i + 1)
  }

  function RestOf(c: Sender): seq<Event>
    requires c.active.Some?
  {
    SendRest(c.active.value.attempt, c.active.value.transferId, Unchanged(c), c.nextLease, c.history.src, |c.history.sent|)
  }

  lemma RestUnfolds(c: Sender, next: Sender)
    requires c.active.Some? && next.active.Some? && |c.history.sent| < PlanSize(c.history.src)
    requires next.active.value.attempt == c.active.value.attempt && next.active.value.transferId == c.active.value.transferId
    requires next.active.value.stamp == c.active.value.stamp && next.nextLease == c.nextLease + 1
    requires next.history.src == c.history.src && |next.history.sent| == |c.history.sent| + 1
    ensures RestOf(c) == SendNext(c) + RestOf(next)
    ensures PlanSize(c.history.src) <= |next.history.sent| ==> RestOf(next) == []
  {
    hide PlanSize, Planned;
  }

  lemma {:induction false} RestIsSent(c: Sender, disk: Disk, required: nat)
    requires Inv(c, disk) && Ongoing(c)
    ensures var d := Run(c, RestOf(c), disk, required);
      && Inv(d, disk) && d.active.Some? && d.active.value.transferId == c.active.value.transferId && d.history.src == c.history.src
      && d.active.value.state == COOLDOWN && d.active.value.afterCooldown == Some(SEND_COMPLETED)
    decreases PlanSize(c.history.src) - |c.history.sent|
  {
    NextIsSent(c, disk, required);
    var next := Run(c, SendNext(c), disk, required);
    hide Inv, PlanSize, Planned, Run, RestOf, SendNext;
    RestUnfolds(c, next);
    RunTwo(c, SendNext(c), RestOf(next), disk, required);
    if |next.history.sent| < PlanSize(c.history.src) {
      RestIsSent(next, disk, required);
    } else {
      RunEmpty(next, disk, required);
    }
  }

  lemma RunEmpty(c: Sender, disk: Disk, required: nat)
    ensures Run(c, [], disk, required) == c
  {
  }

  lemma {:induction false} RunTwo(c: Sender, a: seq<Event>, b: seq<Event>, disk: Disk, required: nat)
    ensures Run(c, a + b, disk, required) == Run(Run(c, a, disk, required), b, disk, required)
    decreases |a|
  {
    hide Step;
    if a == [] {
      assert a + b == b;
    } else {
      assert (a + b)[1..] == a[1..] + b;
      RunTwo(Step(c, a[0], disk, required), a[1..], b, disk, required);
    }
  }

  /** A transfer of an unchanged file, every packet of which is taken and accepted, completes: START, every chunk and END. */
  lemma WholeFileIsSent(c: Sender, id: int, product: ProductRef, stamp: Stamp, disk: Disk, required: nat)
    requires Inv(c, disk) && 0 <= id <= U32_MAX && id !in c.history.started && IsIdle(c)
    requires Readable(Some(stamp), stamp, disk) && 0 < required
    ensures var start := StartTransfer(id, product, Some(stamp), stamp);
      var begun := Step(c, start, disk, required);
      && begun.active.Some?
      && var d := Run(c, [start] + RestOf(begun) + Ticks(id, required), disk, required);
      && d.active.Some? && d.active.value.transferId == id && d.active.value.state == SEND_COMPLETED && id in d.closed
      && d.history.src.bundle == disk.contents(stamp) && IsWholePlan(d.history.src, d.history.sent)
  {
    var start := StartTransfer(id, product, Some(stamp), stamp);
    var begun := Step(c, start, disk, required);
    StartsIff(c, id, product, Some(stamp), stamp, disk);
    StepKeepsInv(c, start, disk, required);
    BegunIs(c, id, product, stamp, disk, required);
    hide Inv, Run, Step, Ticks, IsWholePlan, RestOf, Start;
    RestIsSent(begun, disk, required);
    var sent := Run(begun, RestOf(begun), disk, required);
    TicksConclude(sent, SEND_COMPLETED, required, disk, required);
    RunRemembers(sent, Ticks(id, required), disk, required);
    CompletedMeansWhole(Run(sent, Ticks(id, required), disk, required), disk);
    RunTwo(begun, RestOf(begun), Ticks(id, required), disk, required);
    RunFirst(c, start, RestOf(begun) + Ticks(id, required), disk, required);
    assert [start] + RestOf(begun) + Ticks(id, required) == [start] + (RestOf(begun) + Ticks(id, required));
  }

  lemma BegunIs(c: Sender, id: int, product: ProductRef, stamp: Stamp, disk: Disk, required: nat)
    requires Start(c, id, product, Some(stamp), stamp, disk).Ok?
    ensures Step(c, StartTransfer(id, product, Some(stamp), stamp), disk, required) == Start(c, id, product, Some(stamp), stamp, disk).value
    ensures Start(c, id, product, Some(stamp), stamp, disk).value.history.src.bundle == disk.contents(stamp)
  {
  }

  lemma CompletedMeansWhole(c: Sender, disk: Disk)
    requires Inv(c, disk) && c.active.Some? && c.active.value.state == SEND_COMPLETED
    ensures IsWholePlan(c.history.src, c.history.sent)
  {
  }
}
