/**
 The adapter between the scheduler and the link: a frame taken from the scheduler belongs to the
 adapter until both its status and its returned buffer have come back. The callbacks carry no
 frame id; they count for whichever frame is held when they arrive.
 */
module UdpAdapter {
  import opened Bytes
  import opened ComScheduler

  datatype Gate = Gate(item: nat, status: Option<string>, returned: bool)

  datatype Completion = Completion(item: nat, status: string)

  predicate IsOver(g: Gate) {
    g.status.Some? && g.returned
  }

  function Told(g: Gate, status: string): Gate {
    if g.status.Some? then g else g.(status := Some(status))
  }

  /** The frames reported as completed are exactly those the scheduler has seen complete, each once. */
  ghost predicate Reported(completions: seq<Completion>, place: map<nat, Place>) {
    && (forall i :: 0 <= i < |completions| ==> completions[i].item in place && place[completions[i].item] == Completed)
    && (forall id :: id in place && place[id] == Completed ==> HasReport(completions, id))
    && (forall i, j :: 0 <= i < j < |completions| ==> completions[i].item != completions[j].item)
  }

  ghost predicate HasReport(completions: seq<Completion>, id: nat) {
    exists i :: 0 <= i < |completions| && completions[i].item == id
  }

  /** The gate stands for the scheduler's frame in flight, which has been told nothing yet. */
  predicate Mirrors(gate: Option<Gate>, current: Option<Flight>) {
    && (gate.Some? <==> current.Some?)
    && (gate.Some? ==> gate.value.item == current.value.item.id && current.value.status.None? && !current.value.returned)
  }

  lemma ReportOne(completions: seq<Completion>, place: map<nat, Place>, id: nat, status: string)
    requires Reported(completions, place) && id in place && place[id] == InFlight
    ensures Reported(completions + [Completion(id, status)], place[id := Completed])
  {
    var more, next := completions + [Completion(id, status)], place[id := Completed];
    forall k | k in next && next[k] == Completed ensures HasReport(more, k) {
      if k == id {
        assert more[|completions|].item == id;
      } else {
        var i :| 0 <= i < |completions| && completions[i].item == k;
        assert more[i].item == k;
      }
    }
  }

  /** Placing a frame anywhere but among the completed ones needs no report. */
  lemma MoveKeepsReported(completions: seq<Completion>, place: map<nat, Place>, id: nat, to: Place)
    requires Reported(completions, place) && to != Completed && (id in place ==> place[id] != Completed)
    ensures Reported(completions, place[id := to])
  {
    hide HasReport;
  }

  /** The two callbacks a held frame waits for. */
  datatype Callback = StatusCame(status: string) | BufferCame

  function Heard(g: Gate, calls: seq<Callback>): Gate {
    if calls == [] then g
    else
      var before, last := Heard(g, calls[..|calls| - 1]), calls[|calls| - 1];
      if last.StatusCame? then Told(before, last.status) else before.(returned := true)
  }

  predicate IsFirstStatus(calls: seq<Callback>, i: nat) {
    i < |calls| && calls[i].StatusCame? && forall j :: 0 <= j < i ==> calls[j] == BufferCame
  }

  lemma {:induction false} HeardWhatCame(item: nat, calls: seq<Callback>)
    ensures var g := Heard(Gate(item, None, false), calls);
      && g.item == item
      && (g.returned <==> exists i :: 0 <= i < |calls| && calls[i] == BufferCame)
      && (g.status.Some? <==> exists i :: 0 <= i < |calls| && calls[i].StatusCame?)
  {
    if calls != [] {
      var init, last := calls[..|calls| - 1], calls[|calls| - 1];
      HeardWhatCame(item, init);
      assert forall i :: 0 <= i < |init| ==> calls[i] == init[i];
    }
  }

  lemma {:induction false} FirstStatusIsHeard(item: nat, calls: seq<Callback>, i: nat)
    requires IsFirstStatus(calls, i)
    ensures Heard(Gate(item, None, false), calls).status == Some(calls[i].status)
  {
    var init, last := calls[..|calls| - 1], calls[|calls| - 1];
    HeardWhatCame(item, init);
    assert forall j :: 0 <= j < |init| ==> calls[j] == init[j];
    if i < |init| {
      FirstStatusIsHeard(item, init, i);
    }
  }

  /** However the callbacks come, and however often, a frame is over exactly when both have come, with the first status of all. */
  lemma OverIffBothCame(item: nat, calls: seq<Callback>)
    ensures var g := Heard(Gate(item, None, false), calls);
      && g.item == item
      && (IsOver(g) <==>
            (exists i :: 0 <= i < |calls| && calls[i] == BufferCame) && exists i :: 0 <= i < |calls| && calls[i].StatusCame?)
      && forall i: nat :: IsFirstStatus(calls, i) ==> g.status == Some(calls[i].status)
  {
    HeardWhatCame(item, calls);
    forall i: nat | IsFirstStatus(calls, i) ensures Heard(Gate(item, None, false), calls).status == Some(calls[i].status) {
      FirstStatusIsHeard(item, calls, i);
    }
    hide Heard;
  }

  class MissionUdpAdapter {
    const scheduler: MissionComScheduler
    var gate: Option<Gate>
    var completions: seq<Completion>

    ghost predicate Valid()
      reads this, scheduler
    {
      && scheduler.Valid()
      && Mirrors(gate, scheduler.current)
      && (gate.Some? ==> !IsOver(gate.value))
      && Reported(completions, scheduler.place)
    }

    constructor (bursts: Bursts, capacities: Capacities)
      requires 0 < bursts.ack && 0 < bursts.control
      ensures Valid() && fresh(scheduler) && completions == []
    {
      scheduler := new MissionComScheduler(bursts, capacities);
      gate, completions := None, [];
    }

    /** Takes the next frame from the scheduler; none while one is held. */
    method SendNext() returns (item: Option<Item>)
      requires Valid()
      modifies this, scheduler
      ensures Valid() && completions == old(completions)
      ensures old(gate).Some? ==> item.None?
      ensures item.None? ==> gate == old(gate) && scheduler.place == old(scheduler.place)
      ensures item.Some? ==> gate == Some(Gate(item.value.id, None, false))
    {
      ghost var before := scheduler.place;
      IdleOrHeld();
      hide MissionComScheduler.Valid, Reported;
      item := scheduler.Poll();
      if item.Some? {
        MoveKeepsReported(completions, before, item.value.id, InFlight);
        gate := Some(Gate(item.value.id, None, false));
      }
    }

    lemma IdleOrHeld()
      requires Valid()
      ensures gate.Some? ==> scheduler.state != READY
    {
    }

    /** The first status of the held frame counts. */
    method ReceiveStatus(status: string)
      requires Valid()
      modifies this, scheduler
      ensures Valid()
      ensures old(gate).None? ==> completions == old(completions) && gate.None?
      ensures old(gate).Some? ==> Settled(old(completions), Told(old(gate).value, status))
    {
      hide MissionComScheduler.Valid, Reported;
      if gate.Some? {
        gate := Some(Told(gate.value, status));
        FlushGate();
      }
    }

    method ReceiveReturn()
      requires Valid()
      modifies this, scheduler
      ensures Valid()
      ensures old(gate).None? ==> completions == old(completions) && gate.None?
      ensures old(gate).Some? ==> Settled(old(completions), old(gate).value.(returned := true))
    {
      hide MissionComScheduler.Valid, Reported;
      if gate.Some? {
        gate := Some(gate.value.(returned := true));
        FlushGate();
      }
    }

    /** A frame that is over is reported once with its status and given up; another one stays held. */
    predicate Settled(before: seq<Completion>, g: Gate)
      reads this
    {
      if IsOver(g) then gate.None? && completions == before + [Completion(g.item, g.status.value)]
      else gate == Some(g) && completions == before
    }

    /** Reports the held frame and releases it in the scheduler, once both callbacks have come. */
    method FlushGate()
      requires scheduler.Valid() && Mirrors(gate, scheduler.current) && gate.Some?
      requires Reported(completions, scheduler.place)
      modifies this, scheduler
      ensures Valid() && Settled(old(completions), old(gate).value)
      ensures IsOver(old(gate).value) ==>
        old(gate).value.item in old(scheduler.place) && scheduler.place == old(scheduler.place)[old(gate).value.item := Completed]
      ensures IsOver(old(gate).value) && old(scheduler.notReadyAfterCompletion) ==> scheduler.state == NOT_READY
    {
      hide MissionComScheduler.Valid, Reported;
      var g := gate.value;
      if g.status.None? || !g.returned {
        return;
      }
      ghost var before := scheduler.place;
      gate := None;
      completions := completions + [Completion(g.item, g.status.value)];
      var early := scheduler.MarkUpstreamReturn(g.item);
      var done := scheduler.MarkStatus(g.item, g.status.value);
      ReportOne(old(completions), before, g.item, g.status.value);
    }

    /** A new session: the held frame ends with SESSION_RESET unless its status came first. */
    method Reset()
      requires Valid()
      modifies this, scheduler
      ensures Valid() && gate.None? && scheduler.state == NOT_READY
      ensures completions == old(completions) + if old(gate).None? then []
        else [Completion(old(gate).value.item, Told(old(gate).value, "SESSION_RESET").status.value)]
    {
      hide MissionComScheduler.Valid, Reported;
      scheduler.SetNotReady();
      if gate.Some? {
        gate := Some(Told(gate.value.(returned := true), "SESSION_RESET"));
        FlushGate();
      }
    }
  }
}
