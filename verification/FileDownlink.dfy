/** The coordinator as it works in place: one active record, updated by every call. */
module FileDownlink {
  import opened Bytes
  import opened FilePackets
  import opened SendPlan
  import opened Reassembly
  import opened Coordinator
  import CfdpChecksum

  class FileDownlinkCoordinator {
    const disk: Disk
    const requiredCooldownTicks: nat
    var active: Option<ActiveTransfer>
    var closedAttempts: set<nat>
    var nextAttemptEpoch: nat
    var nextLeaseId: nat
    ghost var history: History

    ghost function Value(): Sender
      reads this
    {
      Sender(active, closedAttempts, nextAttemptEpoch, nextLeaseId, history)
    }

    ghost predicate Valid()
      reads this
    {
      0 < requiredCooldownTicks && Inv(Value(), disk)
    }

    constructor (disk: Disk, cooldownTicks: nat)
      requires 0 < cooldownTicks
      ensures Valid() && Value() == INITIAL && this.disk == disk && requiredCooldownTicks == cooldownTicks
    {
      this.disk, requiredCooldownTicks := disk, cooldownTicks;
      active, closedAttempts, nextAttemptEpoch, nextLeaseId := None, {}, 1, 1;
      history := INITIAL.history;
    }

    /** Reads the bundle once in a stream and begins an attempt. */
    method StartTransfer(id: int, product: ProductRef, seen: Option<Stamp>, again: Stamp) returns (r: Result<(), SendError>)
      requires Valid()
      modifies this
      ensures Valid()
      ensures Value() == Or(Start(old(Value()), id, product, seen, again, disk), old(Value()))
      ensures r.Err? <==> Start(old(Value()), id, product, seen, again, disk).Err?
      ensures r.Err? ==> r.error == Start(old(Value()), id, product, seen, again, disk).error
    {
      ghost var before := Value();
      if Start(before, id, product, seen, again, disk).Ok? {
        StartKeepsInv(before, id, product, seen, again, disk);
      }
      hide Inv;
      if id < 0 || id > U32_MAX {
        return Err(BadTransferId);
      }
      if active.Some? && !IsTerminal(active.value.state) {
        return Err(Busy);
      }
      if id in closedAttempts {
        return Err(Retired);
      }
      if seen.None? {
        return Err(BundleMissing);
      }
      if seen.value.size > U32_MAX {
        return Err(TooLarge);
      }
      var integrity := CfdpChecksum.StreamIntegrity(
        CfdpChecksum.Reads(disk.contents(seen.value), CfdpChecksum.IO_BUFFER_BYTES), None, disk.sha256);
      if again != seen.value || integrity.value.size != seen.value.size {
        return Err(BundleMutated);
      }
      var a := ActiveTransfer(id, product, integrity.value.size, integrity.value.digest, integrity.value.checksum,
                              seen.value, nextAttemptEpoch, SENDING, 0, 0, 0, None, true, None, false, 0, None);
      nextAttemptEpoch := nextAttemptEpoch + 1;
      active := Some(a);
      history := history.(src := Source(disk.contents(seen.value), disk.encodeStart(Fields(a))), sent := [],
                          started := history.started + {id});
      r := Ok(());
    }

    /** Reserves the next packet; nothing when the gate is closed. */
    method ReserveFrame(id: nat, looks: Looks) returns (r: Result<Option<Lease>, SendError>)
      requires Valid()
      modifies this
      ensures Valid()
      ensures Value() == Or(NextFrame(old(Value()), id, looks, disk), old(Value()))
      ensures r.Err? <==> NextFrame(old(Value()), id, looks, disk).Err?
      ensures r.Err? ==> r.error == NextFrame(old(Value()), id, looks, disk).error
      ensures r.Ok? && r.value.Some? ==> Value().active.Some? && Value().active.value.lease == r.value
      ensures r.Ok? && r.value.None? ==> Value() == old(Value()) && NextPacket(Value().active.value, looks, disk) == Ok(None)
    {
      if NextFrame(Value(), id, looks, disk).Ok? {
        NextFrameKeepsInv(Value(), id, looks, disk);
      }
      hide Inv;
      if active.None? || active.value.transferId != id {
        return Err(NotActive);
      }
      if active.value.lease.Some? {
        return Err(FrameInFlight);
      }
      var packet := NextPacket(active.value, looks, disk);
      if packet.Err? {
        return Err(packet.error);
      }
      if packet.value.None? {
        return Ok(None);
      }
      var p := packet.value.value;
      var lease := Lease(active.value.attempt, nextLeaseId, active.value.transferId, p);
      active := Some(active.value.(lease := Some(lease), state := if p.kind == CANCEL then CANCEL_DRAINING else active.value.state));
      history := history.(issued := history.issued[nextLeaseId := lease]);
      nextLeaseId := nextLeaseId + 1;
      r := Ok(Some(lease));
    }

    /** A completion callback for a lease this coordinator handed out. */
    method CompleteFrame(lease: Lease, status: LinkStatus) returns (taken: bool)
      requires Valid() && lease.id in history.issued && history.issued[lease.id] == lease
      modifies this
      ensures Valid()
      ensures (Value(), taken) == Complete(old(Value()), lease, status)
      ensures taken ==> lease.id !in old(history).completed
    {
      CompleteKeepsInv(Value(), lease, status, disk);
      hide Inv, NextCount;
      if active.None? || active.value.attempt != lease.attempt || active.value.transferId != lease.transferId {
        return false;
      }
      if active.value.lease.None? || active.value.lease.value.id != lease.id {
        return false;
      }
      ghost var counted := active.value.state != ABORTING && status.Accepted?;
      history := history.(sent := if counted then history.sent + [lease.packet] else history.sent,
                          completed := history.completed + {lease.id});
      var a := active.value.(lease := None);
      if a.state != ABORTING {
        if status.Refused? {
          a := a.(gateOpen := false, afterCooldown := Some(SEND_FAILED), state := ABORTING,
                  abortReason := Some("LINK_" + status.code));
        } else {
          a := a.(packetSequence := NextCount(a.packetSequence), nextSequence := lease.packet.sequenceIndex + 1);
          match lease.packet.kind
          case START =>
          case DATA => a := a.(nextOffset := lease.packet.offset + |lease.packet.payload|);
          case END =>
            a := a.(gateOpen := false, epochClosed := true, afterCooldown := Some(SEND_COMPLETED), state := COOLDOWN);
          case CANCEL =>
            a := a.(gateOpen := false, epochClosed := true, afterCooldown := Some(SEND_CANCELED), state := COOLDOWN);
        }
      }
      active := Some(a);
      taken := true;
    }

    method AbortTransfer(id: nat, reason: string) returns (r: Result<(), SendError>)
      requires Valid()
      modifies this
      ensures Valid()
      ensures Value() == Or(BeginAbort(old(Value()), id, reason), old(Value()))
      ensures r.Err? <==> BeginAbort(old(Value()), id, reason).Err?
    {
      ControlKeepsInv(Value(), id, reason, requiredCooldownTicks, disk);
      hide Inv;
      if active.None? || active.value.transferId != id {
        return Err(NotActive);
      }
      if !IsTerminal(active.value.state) {
        active := Some(active.value.(gateOpen := false, afterCooldown := Some(SEND_FAILED), state := ABORTING,
                                     abortReason := Some(reason)));
      }
      r := Ok(());
    }

    method CloseAbortFence(id: nat) returns (r: Result<(), SendError>)
      requires Valid()
      modifies this
      ensures Valid()
      ensures Value() == Or(CloseFence(old(Value()), id), old(Value()))
      ensures r.Err? <==> CloseFence(old(Value()), id).Err?
      ensures r.Err? ==> r.error == CloseFence(old(Value()), id).error
    {
      ControlKeepsInv(Value(), id, "", requiredCooldownTicks, disk);
      hide Inv;
      if active.None? || active.value.transferId != id {
        return Err(NotActive);
      }
      if active.value.state != ABORTING {
        return Err(NotAborting);
      }
      if active.value.lease.Some? {
        return Err(BufferInFlight);
      }
      active := Some(active.value.(epochClosed := true, state := COOLDOWN));
      r := Ok(());
    }

    method TickCooldown(id: nat) returns (r: Result<TransferState, SendError>)
      requires Valid()
      modifies this
      ensures Valid()
      ensures Value() == Or(Tick(old(Value()), id, requiredCooldownTicks), old(Value()))
      ensures r.Err? <==> Tick(old(Value()), id, requiredCooldownTicks).Err?
      ensures r.Ok? ==> active.Some? && r.value == active.value.state
    {
      ControlKeepsInv(Value(), id, "", requiredCooldownTicks, disk);
      hide Inv;
      if active.None? || active.value.transferId != id {
        return Err(NotActive);
      }
      if active.value.state != COOLDOWN {
        return Ok(active.value.state);
      }
      if !active.value.epochClosed {
        return Err(EpochNotClosed);
      }
      var a := active.value.(cooldownTicks := active.value.cooldownTicks + 1);
      if a.cooldownTicks >= requiredCooldownTicks {
        a := a.(state := if a.afterCooldown.Some? then a.afterCooldown.value else SEND_FAILED);
        closedAttempts := closedAttempts + {id};
      }
      active := Some(a);
      r := Ok(a.state);
    }

    method CancelTransfer(id: nat) returns (r: Result<bool, SendError>)
      requires Valid()
      modifies this
      ensures Valid()
      ensures Value() == Or(RequestCancel(old(Value()), id), old(Value()))
      ensures r.Err? <==> !ActiveFor(old(Value()), id)
      ensures r.Ok? ==> (r.value <==> !IsTerminal(old(Value()).active.value.state))
    {
      ControlKeepsInv(Value(), id, "", requiredCooldownTicks, disk);
      hide Inv;
      if active.None? || active.value.transferId != id {
        return Err(NotActive);
      }
      if IsTerminal(active.value.state) {
        return Ok(false);
      }
      if active.value.state == SENDING {
        active := Some(active.value.(state := CANCEL_REQUESTED));
      }
      r := Ok(true);
    }

    /** Ticks until the cooldown is over; the attempt ends as it was decided to. */
    method FinishCooldown(id: nat)
      requires Valid() && active.Some? && active.value.transferId == id
      modifies this
      ensures Valid()
      ensures Value() == if old(Value()).active.value.state == COOLDOWN
                         then Drained(old(Value()), requiredCooldownTicks) else old(Value())
    {
      ghost var before := Value();
      while active.Some? && active.value.state == COOLDOWN
        invariant Valid() && active.Some? && active.value.transferId == id
        invariant before.active.value.state != COOLDOWN ==> Value() == before
        invariant before.active.value.state == COOLDOWN && active.value.state == COOLDOWN ==>
                    && Drained(Value(), requiredCooldownTicks) == Drained(before, requiredCooldownTicks)
        invariant before.active.value.state == COOLDOWN && active.value.state != COOLDOWN ==>
                    Value() == Drained(before, requiredCooldownTicks)
        decreases active.Some? && active.value.state == COOLDOWN,
                  requiredCooldownTicks - (if active.Some? then active.value.cooldownTicks else 0)
      {
        CooldownIsReady(Value(), disk);
        hide Inv;
        var r := TickCooldown(id);
      }
    }

    lemma CooldownIsReady(c: Sender, disk: Disk)
      requires Inv(c, disk) && c.active.Some? && c.active.value.state == COOLDOWN
      ensures c.active.value.epochClosed && IsTerminal(c.active.value.afterCooldown.value)
    {
    }

    /** Queues one frame; a refused frame gives its lease back. */
    method EnqueueNext(id: nat, looks: Looks, admitted: bool) returns (r: Result<Option<Lease>, SendError>)
      requires Valid()
      modifies this
      ensures Valid()
      ensures Value() == Step(old(Value()), Enqueue(id, looks, admitted), disk, requiredCooldownTicks)
    {
      r := ReserveFrame(id, looks);
      if r.Ok? && r.value.Some? && !admitted {
        DropLeaseKeepsInv(Value(), disk);
        hide Inv;
        active := Some(active.value.(lease := None));
      }
    }

    /** One attempt whose every packet is accepted: the packets are the plan and the attempt completes. */
    method SendAll(id: nat, looks: Looks) returns (packets: seq<FilePacket>)
      requires Valid() && ActiveFor(Value(), id) && active.value.state == SENDING && active.value.lease.None?
      requires history.sent == [] && looks == Looks(active.value.stamp, active.value.stamp, active.value.stamp)
      modifies this
      ensures Valid() && ActiveFor(Value(), id)
      ensures history.src == old(history.src) && active.value.stamp == old(active.value.stamp)
      ensures IsWholePlan(history.src, packets) && history.sent == packets
      ensures active.value.state == SEND_COMPLETED && id in closedAttempts
    {
      packets := [];
      while active.Some? && active.value.state == SENDING
        invariant Valid() && ActiveFor(Value(), id) && active.value.lease.None? && active.value.stamp == looks.first
        invariant history.src == old(history.src) && history.sent == packets
        invariant active.value.state == SENDING
                  || (active.value.state == COOLDOWN && active.value.afterCooldown == Some(SEND_COMPLETED))
        decreases PlanSize(history.src) - |packets|, if active.Some? && active.value.state == SENDING then 1 else 0
      {
        SendingOffersPlanned(Value(), disk);
        hide Inv, Planned, IsWholePlan;
        var r := ReserveFrame(id, looks);
        var lease := r.value.value;
        LeaseIsIssued(Value(), disk);
        var taken := CompleteFrame(lease, Accepted);
        packets := packets + [lease.packet];
      }
      CooldownIsReady(Value(), disk);
      FinishCooldown(id);
    }

    lemma SendingOffersPlanned(c: Sender, disk: Disk)
      requires Inv(c, disk) && c.active.Some? && c.active.value.state == SENDING
      ensures var a := c.active.value;
        && NextPacket(a, Looks(a.stamp, a.stamp, a.stamp), disk) == Ok(Some(Planned(c.history.src, |c.history.sent|)))
        && |c.history.sent| < PlanSize(c.history.src)
        && Planned(c.history.src, |c.history.sent|).kind != CANCEL
    {
      StableFileOffersPlanned(c.active.value, c.history, disk);
    }

    lemma LeaseIsIssued(c: Sender, disk: Disk)
      requires Inv(c, disk) && c.active.Some? && c.active.value.lease.Some?
      ensures var lease := c.active.value.lease.value;
        && lease.id in c.history.issued && c.history.issued[lease.id] == lease
        && lease.attempt == c.active.value.attempt && lease.transferId == c.active.value.transferId
    {
    }
  }
}
