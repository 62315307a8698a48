/**
 Ground station, satellites and the space between them. Copies of a command or a receipt, once
 on the air, may arrive any number of times, in any order, or never; the sets below hold what
 has been sent and deliveries pick from them freely.
 */
module Delivery {
  import opened Bytes
  import opened OutboxModel
  import opened OutboxInvariant
  import OutboxSafety
  import OutboxOutcomes
  import opened Journal
  import opened Satellite

  /** A receipt on the air: which satellite answered about which key. */
  datatype Telemetry = Telemetry(source: nat, key: Key, accepted: bool)

  datatype World = World(db: Db, sats: map<nat, Sat>, up: set<TcCommand>, down: set<Telemetry>)

  datatype WorldEvent =
    | Ground(ev: Event)
    | Transmit(id: AttemptId, command: TcCommand)
    | Arrive(command: TcCommand, satellite: nat, local: Local)
    | Receive(telemetry: Telemetry, generation: nat, session: nat, success: bool, code: ErrorCode)
    | CompactAt(satellite: nat, key: Key, relatedTerminal: bool)

  /** Ground transactions other than receipts; receipts come only from telemetry. */
  predicate GroundOnly(ev: Event) {
    !ev.EvAck?
  }

  /** A persisted attempt is encoded under its own key and target. */
  predicate Carries(db: Db, id: AttemptId, c: TcCommand) {
    id in db.attempts && c.key == id.key && c.target == db.attempts[id].target
  }

  function ReceiptOf(t: Telemetry, generation: nat, session: nat, success: bool, code: ErrorCode): Receipt {
    Receipt(t.key, success, code, Some(Correlation(t.source, generation, session)))
  }

  ghost function WorldStep(w: World, ev: WorldEvent, p: Policy): World {
    match ev
    case Ground(e) => if GroundOnly(e) then w.(db := Step(w.db, e, p)) else w
    case Transmit(id, c) => if Carries(w.db, id, c) then w.(up := w.up + {c}) else w
    case Arrive(c, i, local) =>
      if c !in w.up || i !in w.sats then w
      else
        var (sat, response) := Handle(w.sats[i], c, local);
        w.(sats := w.sats[i := sat],
           down := if response.Some? then w.down + {Telemetry(i, response.value.key, response.value.accepted)} else w.down)
    case Receive(t, generation, session, success, code) =>
      if t !in w.down then w
      else w.(db := Step(w.db, EvAck(ReceiptOf(t, generation, session, success, code)), p))
    case CompactAt(i, k, related) =>
      if i in w.sats then w.(sats := w.sats[i := SatStep(w.sats[i], Compact(k, related))]) else w
  }

  /** Every receipt on the air is about a key its satellite has recorded or retired. */
  ghost predicate ReceiptsAreHonest(w: World) {
    forall t :: t in w.down ==> t.source in w.sats && Seen(w.sats[t.source].journal, t.key)
  }

  ghost predicate AckIsHonest(w: World, k: Key) {
    k in w.db.outbox && w.db.outbox[k].state == ACKED ==>
      w.db.outbox[k].target in w.sats && Seen(w.sats[w.db.outbox[k].target].journal, k)
  }

  /** An acknowledged row was answered by a satellite that knows the key, and no satellite acts twice. */
  ghost predicate WorldInv(w: World, p: Policy) {
    && Inv(w.db, p)
    && (forall i :: i in w.sats ==> w.sats[i].me == i && OnceInv(w.sats[i]))
    && ReceiptsAreHonest(w)
    && (forall k :: AckIsHonest(w, k))
  }

  /** An acknowledged row was acknowledged, with the same target, before the step. */
  ghost predicate AckedBefore(db: Db, d: Db, k: Key) {
    k in d.outbox && d.outbox[k].state == ACKED ==>
      k in db.outbox && db.outbox[k].state == ACKED && db.outbox[k].target == d.outbox[k].target
  }

  lemma BulkAcknowledgesNothing(db: Db, ev: Event, k: Key, p: Policy)
    requires (forall j :: j in db.outbox ==> j in db.commands) && (ev.EvContact? || ev.EvBind? || ev.EvReconcile?)
    ensures AckedBefore(db, Step(db, ev, p), k)
  {
    hide Backoff, RevokeAttempts, FailCommands;
  }

  lemma SendAcknowledgesNothing(db: Db, ev: Event, k: Key, p: Policy)
    requires ev.EvClaim? || ev.EvPrepare? || ev.EvMarkSent? || ev.EvMarkNotSent? || ev.EvAttemptNotSent? || ev.EvRollback?
    ensures AckedBefore(db, Step(db, ev, p), k)
  {
    hide Backoff;
  }

  lemma AdmitAcknowledgesNothing(db: Db, ev: Event, k: Key, p: Policy)
    requires ev.EvAdmit? || ev.EvRetire?
    ensures AckedBefore(db, Step(db, ev, p), k)
  {
    hide OwnedBy, LiveKeys;
  }

  /** Only a receipt can make a row acknowledged. */
  lemma OnlyReceiptsAcknowledge(db: Db, ev: Event, k: Key, p: Policy)
    requires Inv(db, p) && GroundOnly(ev)
    ensures AckedBefore(db, Step(db, ev, p), k)
  {
    assert forall j :: j in db.outbox ==> j in db.commands by { assert RowsInv(db); }
    hide Inv, Step, AckedBefore;
    match ev
    case EvContact(_, _, _) => BulkAcknowledgesNothing(db, ev, k, p);
    case EvBind(_, _) => BulkAcknowledgesNothing(db, ev, k, p);
    case EvReconcile(_) => BulkAcknowledgesNothing(db, ev, k, p);
    case EvAdmit(_, _, _, _) => AdmitAcknowledgesNothing(db, ev, k, p);
    case EvRetire(_, _, _) => AdmitAcknowledgesNothing(db, ev, k, p);
    case _ => SendAcknowledgesNothing(db, ev, k, p);
  }

  /** A correlated receipt can acknowledge only its own key, at its own source. */
  lemma ReceiptAcknowledgesItsKey(db: Db, t: Telemetry, generation: nat, session: nat, success: bool, code: ErrorCode, k: Key, p: Policy)
    requires var d := Step(db, EvAck(ReceiptOf(t, generation, session, success, code)), p);
      k in d.outbox && d.outbox[k].state == ACKED
    ensures var d := Step(db, EvAck(ReceiptOf(t, generation, session, success, code)), p);
      && k in db.outbox && db.outbox[k].target == d.outbox[k].target
      && (db.outbox[k].state == ACKED || (k == t.key && d.outbox[k].target == t.source))
  {
    hide SentOn, AckAttempts;
  }

  /** A satellite's journal only grows in what it has seen, so honest acknowledgements stay honest. */
  lemma HonestStays(w: World, v: World, k: Key)
    requires AckIsHonest(w, k) && v.db == w.db
    requires forall i :: i in w.sats ==> i in v.sats && (Seen(w.sats[i].journal, k) ==> Seen(v.sats[i].journal, k))
    ensures AckIsHonest(v, k)
  {
  }

  lemma ArriveKeepsInv(w: World, c: TcCommand, i: nat, local: Local, p: Policy)
    requires WorldInv(w, p) && c in w.up && i in w.sats
    ensures WorldInv(WorldStep(w, Arrive(c, i, local), p), p)
  {
    hide Inv, OnceInv, Handle;
    var v := WorldStep(w, Arrive(c, i, local), p);
    var (sat, response) := Handle(w.sats[i], c, local);
    HandleKeepsOnce(w.sats[i], c, local);
    NewActIsSeen(w.sats[i], c, local);
    forall k | Seen(w.sats[i].journal, k) ensures Seen(sat.journal, k) {
      HandleRemembers(w.sats[i], c, local, k);
    }
    if response.Some? {
      ResponseMeansSeen(w.sats[i], c, local);
    }
    hide Seen, AckIsHonest;
    forall k ensures AckIsHonest(v, k) {
      HonestStays(w, v, k);
    }
  }

  lemma CompactKeepsInv(w: World, i: nat, k: Key, related: bool, p: Policy)
    requires WorldInv(w, p) && i in w.sats
    ensures WorldInv(WorldStep(w, CompactAt(i, k, related), p), p)
  {
    hide Inv, OnceInv;
    var v := WorldStep(w, CompactAt(i, k, related), p);
    SatStepKeepsOnce(w.sats[i], Compact(k, related));
    forall j | Seen(w.sats[i].journal, j) ensures Seen(v.sats[i].journal, j) {
      SatStepRemembers(w.sats[i], Compact(k, related), j);
    }
    assert v.sats[i].me == i;
    hide Seen, AckIsHonest, SatStep;
    forall j ensures AckIsHonest(v, j) {
      HonestStays(w, v, j);
    }
  }

  lemma GroundKeepsInv(w: World, ev: Event, p: Policy)
    requires WorldInv(w, p) && GroundOnly(ev)
    ensures WorldInv(w.(db := Step(w.db, ev, p)), p)
  {
    var v := w.(db := Step(w.db, ev, p));
    hide Inv, OnceInv, Step, Seen;
    StepKeepsInv(w.db, ev, p);
    forall k ensures AckIsHonest(v, k) {
      if k in v.db.outbox && v.db.outbox[k].state == ACKED {
        OnlyReceiptsAcknowledge(w.db, ev, k, p);
        assert AckIsHonest(w, k);
      }
    }
  }

  lemma ReceiveKeepsInv(w: World, t: Telemetry, generation: nat, session: nat, success: bool, code: ErrorCode, p: Policy)
    requires WorldInv(w, p) && t in w.down
    ensures WorldInv(w.(db := Step(w.db, EvAck(ReceiptOf(t, generation, session, success, code)), p)), p)
  {
    var v := w.(db := Step(w.db, EvAck(ReceiptOf(t, generation, session, success, code)), p));
    hide Inv, OnceInv, Step, Seen;
    StepKeepsInv(w.db, EvAck(ReceiptOf(t, generation, session, success, code)), p);
    forall k ensures AckIsHonest(v, k) {
      if k in v.db.outbox && v.db.outbox[k].state == ACKED {
        ReceiptAcknowledgesItsKey(w.db, t, generation, session, success, code, k, p);
        assert AckIsHonest(w, k);
      }
    }
  }

  lemma WorldStepKeepsInv(w: World, ev: WorldEvent, p: Policy)
    requires WorldInv(w, p)
    ensures WorldInv(WorldStep(w, ev, p), p)
  {
    hide Inv, OnceInv, Step, Seen, Handle, SatStep;
    match ev
    case Ground(e) => if GroundOnly(e) { GroundKeepsInv(w, e, p); }
    case Transmit(id, c) => assert forall k :: AckIsHonest(w, k) ==> AckIsHonest(WorldStep(w, ev, p), k);
    case Arrive(c, i, local) => if c in w.up && i in w.sats { ArriveKeepsInv(w, c, i, local, p); }
    case Receive(t, generation, session, success, code) =>
      if t in w.down { ReceiveKeepsInv(w, t, generation, session, success, code, p); }
    case CompactAt(i, k, related) => if i in w.sats { CompactKeepsInv(w, i, k, related, p); }
  }

  /** Empty tables, satellites that have done nothing, and nothing on the air. */
  predicate IsFresh(w: World) {
    && w.db == OutboxSafety.EMPTY && w.up == {} && w.down == {}
    && (forall i :: i in w.sats ==> w.sats[i].me == i && w.sats[i].acted == [])
  }

  lemma FreshWorld(w: World, p: Policy)
    requires IsFresh(w)
    ensures WorldInv(w, p)
  {
    OutboxSafety.EmptyIsFine(p);
    hide Inv;
  }

  ghost function WorldRun(w: World, events: seq<WorldEvent>, p: Policy): World
    decreases |events|
  {
    if events == [] then w else WorldRun(WorldStep(w, events[0], p), events[1..], p)
  }

  ghost predicate HonestAndOnce(w: World) {
    && (forall k :: k in w.db.outbox && w.db.outbox[k].state == ACKED ==>
          w.db.outbox[k].target in w.sats && Seen(w.sats[w.db.outbox[k].target].journal, k))
    && (forall i, a, b :: i in w.sats && 0 <= a < b < |w.sats[i].acted| && w.sats[i].acted[a].key == w.sats[i].acted[b].key ==>
          ActsFirst(w.sats[i].acted[a].opcode))
  }

  /**
   Under any interleaving of ground transactions, losses, repetitions, reorderings, timeouts,
   retries, rebindings and compactions: a command is acknowledged only if the satellite it was
   meant for has recorded or retired its key, and no satellite acts on a key twice unless its
   first execution was a cancel command.
   */
  lemma {:induction false} DeliveryIsSafe(w: World, events: seq<WorldEvent>, p: Policy)
    requires WorldInv(w, p)
    ensures HonestAndOnce(WorldRun(w, events, p))
    decreases |events|
  {
    hide Inv, WorldStep, HonestAndOnce;
    if events == [] {
      InvIsHonestAndOnce(w, p);
    } else {
      WorldStepKeepsInv(w, events[0], p);
      hide WorldInv;
      DeliveryIsSafe(WorldStep(w, events[0], p), events[1..], p);
    }
  }

  lemma InvIsHonestAndOnce(w: World, p: Policy)
    requires WorldInv(w, p)
    ensures HonestAndOnce(w)
  {
    hide Inv, Seen;
    forall k | k in w.db.outbox && w.db.outbox[k].state == ACKED
      ensures w.db.outbox[k].target in w.sats && Seen(w.sats[w.db.outbox[k].target].journal, k)
    {
      assert AckIsHonest(w, k);
    }
  }

  // ---------------------------------------------------------------- one target per key

  /** All commands on the air under one key name one target, that of the outbox row while it exists. */
  ghost predicate OneTarget(w: World) {
    && (forall c, d :: c in w.up && d in w.up && c.key == d.key ==> c.target == d.target)
    && (forall c :: c in w.up && c.key in w.db.outbox ==> c.target == w.db.outbox[c.key].target)
  }

  /** A key that is admitted has never been on the air: keys are not issued twice. */
  predicate FreshKeys(w: World, ev: WorldEvent) {
    ev.Ground? && ev.ev.EvAdmit? ==> forall c :: c in w.up ==> c.key != ev.ev.key
  }

  ghost predicate AllFresh(w: World, events: seq<WorldEvent>, p: Policy)
    decreases |events|
  {
    events == [] || (FreshKeys(w, events[0]) && AllFresh(WorldStep(w, events[0], p), events[1..], p))
  }

  /** A row that stays keeps its target, and only an admission under its key makes a new one. */
  ghost predicate TargetKept(db: Db, d: Db, ev: Event, k: Key) {
    k in d.outbox ==> (k in db.outbox && d.outbox[k].target == db.outbox[k].target) || (ev.EvAdmit? && ev.key == k)
  }

  lemma BulkKeepsTarget(db: Db, ev: Event, k: Key, p: Policy)
    requires ev.EvContact? || ev.EvBind? || ev.EvReconcile?
    ensures TargetKept(db, Step(db, ev, p), ev, k)
  {
    hide Backoff, RevokeAttempts, FailCommands, Judge;
  }

  lemma RowKeepsTarget(db: Db, ev: Event, k: Key, p: Policy)
    requires !ev.EvContact? && !ev.EvBind? && !ev.EvReconcile?
    ensures TargetKept(db, Step(db, ev, p), ev, k)
  {
    hide Backoff, OwnedBy, LiveKeys, SentOn, AckAttempts;
  }

  lemma StepKeepsTarget(db: Db, ev: Event, k: Key, p: Policy)
    ensures TargetKept(db, Step(db, ev, p), ev, k)
  {
    hide TargetKept, Step;
    if ev.EvContact? || ev.EvBind? || ev.EvReconcile? {
      BulkKeepsTarget(db, ev, k, p);
    } else {
      RowKeepsTarget(db, ev, k, p);
    }
  }

  lemma DbKeepsOneTarget(w: World, ev: Event, p: Policy)
    requires OneTarget(w) && FreshKeys(w, Ground(ev))
    ensures OneTarget(w.(db := Step(w.db, ev, p)))
  {
    hide Step;
    forall c | c in w.up && c.key in Step(w.db, ev, p).outbox ensures c.target == Step(w.db, ev, p).outbox[c.key].target {
      StepKeepsTarget(w.db, ev, c.key, p);
    }
  }

  lemma AttemptsFollowRows(db: Db, id: AttemptId, p: Policy)
    requires Inv(db, p) && id in db.attempts
    ensures id.key in db.outbox && db.attempts[id].target == db.outbox[id.key].target
  {
    assert NumberedInv(db, p);
    hide RowsInv, OwnersInv, LinkInv, LiveKeys;
  }

  lemma WorldKeepsOneTarget(w: World, ev: WorldEvent, p: Policy)
    requires WorldInv(w, p) && OneTarget(w) && FreshKeys(w, ev)
    ensures OneTarget(WorldStep(w, ev, p)) && w.up <= WorldStep(w, ev, p).up
    ensures forall i :: i in w.sats <==> i in WorldStep(w, ev, p).sats
  {
    hide Inv, Step, Handle, SatStep, OnceInv;
    match ev
    case Ground(e) => DbKeepsOneTarget(w, e, p);
    case Transmit(id, c) => if Carries(w.db, id, c) { AttemptsFollowRows(w.db, id, p); }
    case Arrive(c, i, local) =>
    case Receive(t, generation, session, success, code) =>
      DbKeepsOneTarget(w, EvAck(ReceiptOf(t, generation, session, success, code)), p);
    case CompactAt(i, k, related) =>
  }

  lemma {:induction false} RunKeepsOneTarget(w: World, events: seq<WorldEvent>, p: Policy)
    requires WorldInv(w, p) && OneTarget(w) && AllFresh(w, events, p)
    ensures OneTarget(WorldRun(w, events, p)) && w.up <= WorldRun(w, events, p).up
    decreases |events|
  {
    hide WorldInv, OneTarget, WorldStep, FreshKeys;
    if events != [] {
      WorldStepKeepsInv(w, events[0], p);
      WorldKeepsOneTarget(w, events[0], p);
      RunKeepsOneTarget(WorldStep(w, events[0], p), events[1..], p);
    }
  }

  /**
   While request keys are issued once, a misdirected copy never blocks a command: whatever arrives
   at a satellite it is not meant for, no command for that satellite under the same key is on the
   air, then or later in the run.
   */
  lemma MisdirectedBlocksNothing(w: World, events: seq<WorldEvent>, c: TcCommand, i: nat, right: TcCommand, p: Policy)
    requires WorldInv(w, p) && OneTarget(w) && AllFresh(w, events, p)
    requires c in w.up && c.target != i
    requires right in WorldRun(w, events, p).up && right.key == c.key
    ensures right.target != i
  {
    RunKeepsOneTarget(w, events, p);
  }

  lemma FreshWorldHasOneTarget(w: World)
    requires IsFresh(w)
    ensures OneTarget(w)
  {
  }

  // ---------------------------------------------------------------- a command that gets through

  function Grounds(events: seq<Event>): seq<WorldEvent> {
    seq(|events|, i requires 0 <= i < |events| => Ground(events[i]))
  }

  lemma {:induction false} WorldRunConcat(w: World, a: seq<WorldEvent>, b: seq<WorldEvent>, p: Policy)
    ensures WorldRun(w, a + b, p) == WorldRun(WorldRun(w, a, p), b, p)
    decreases |a|
  {
    hide WorldStep;
    if a == [] {
      assert a + b == b;
    } else {
      assert (a + b)[1..] == a[1..] + b;
      WorldRunConcat(WorldStep(w, a[0], p), a[1..], b, p);
    }
  }

  /** Ground transactions run in the world as they do on the tables alone. */
  lemma {:induction false} GroundRuns(w: World, events: seq<Event>, p: Policy)
    requires forall e :: e in events ==> GroundOnly(e)
    ensures WorldRun(w, Grounds(events), p) == w.(db := OutboxSafety.Run(w.db, events, p))
    decreases |events|
  {
    hide Step;
    if events != [] {
      assert Grounds(events)[1..] == Grounds(events[1..]);
      var next := WorldStep(w, Ground(events[0]), p);
      assert next == w.(db := Step(w.db, events[0], p));
      GroundRuns(next, events[1..], p);
    }
  }

  /** The attempt goes on the air, the copy arrives and is answered, and the answer comes back. */
  function RoundTrip(st: OutboxSafety.Story, c: TcCommand, local: Local, accepted: bool, code: ErrorCode): seq<WorldEvent> {
    [Transmit(AttemptId(st.key, 1), c), Arrive(c, st.link.instance, local),
     Receive(Telemetry(st.link.instance, st.key, accepted), st.link.generation, st.link.session, accepted, code)]
  }

  /** The command of the story, new to its satellite. */
  ghost predicate IsNewTo(w: World, st: OutboxSafety.Story, c: TcCommand) {
    && st.link.instance in w.sats && c.key == st.key && c.target == st.link.instance
    && !Seen(w.sats[st.link.instance].journal, st.key)
    && w.sats[st.link.instance].config.revision <= U32_MAX && w.sats[st.link.instance].config.epoch <= U32_MAX
  }

  /** What the round trip does to a world whose tables have just armed the attempt. */
  lemma RoundTripRuns(w: World, st: OutboxSafety.Story, c: TcCommand, local: Local, code: ErrorCode)
    requires IsNewTo(w, st, c) && w.sats[st.link.instance].me == st.link.instance && !local.crashes
    requires Carries(w.db, AttemptId(st.key, 1), c)
    ensures var i, sat := st.link.instance, w.sats[st.link.instance];
      var done := Executable(sat, c, local);
      var d := WorldRun(w, RoundTrip(st, c, local, done, code), st.p);
      && d.db == Step(w.db, EvAck(OutboxOutcomes.AnswerOf(st, done, code)), st.p)
      && i in d.sats && d.sats[i].acted == sat.acted + (if done then [c] else []) && st.key in d.sats[i].journal.full
  {
    var i, sat := st.link.instance, w.sats[st.link.instance];
    var done := Executable(sat, c, local);
    NewCommandOutcome(sat, c, local);
    var response := Handle(sat, c, local).1;
    hide Step, Handle, Executable, Seen, Carries;
    assert response.Some? && response.value.key == c.key && response.value.accepted == done;
    var events := RoundTrip(st, c, local, done, code);
    assert events[1..][1..][1..] == [];
    var w1 := WorldStep(w, events[0], st.p);
    var w2 := WorldStep(w1, events[1], st.p);
    var w3 := WorldStep(w2, events[2], st.p);
    assert w1 == w.(up := w.up + {c});
    assert Telemetry(i, st.key, done) in w2.down;
    assert ReceiptOf(Telemetry(i, st.key, done), st.link.generation, st.link.session, done, code) == OutboxOutcomes.AnswerOf(st, done, code);
    hide WorldStep;
    assert WorldRun(w3, [], st.p) == w3;
    assert WorldRun(w2, events[1..][1..], st.p) == w3;
    assert WorldRun(w1, events[1..], st.p) == w3;
  }

  /**
   From a fresh world, when nothing is lost: a command that is bound for, admitted, sent and
   answered is executed by its satellite exactly once if its conditions hold there, and is then
   acknowledged on the ground; otherwise it is not executed and fails with the code of the answer.
   */
  lemma CommandGetsThrough(w: World, st: OutboxSafety.Story, c: TcCommand, local: Local, code: ErrorCode)
    requires IsFresh(w) && OutboxSafety.Tellable(st) && IsNewTo(w, st, c) && !local.crashes
    ensures var done := Executable(w.sats[st.link.instance], c, local);
      var sending := OutboxSafety.Begin(st) + OutboxSafety.SendOnce(st, 1, st.begun);
      var d := WorldRun(w, Grounds(sending) + RoundTrip(st, c, local, done, code), st.p);
      && Known(d.db, st.key) && st.link.instance in d.sats && st.key in d.sats[st.link.instance].journal.full
      && (if done
          then d.db.outbox[st.key].state == ACKED && d.db.commands[st.key].state == COMMAND_ACKED && d.sats[st.link.instance].acted == [c]
          else d.db.outbox[st.key].state == DELIVERY_FAILED && d.db.outbox[st.key].error == Some(code)
               && d.db.commands[st.key].state == FAILED && d.sats[st.link.instance].acted == [])
  {
    var done := Executable(w.sats[st.link.instance], c, local);
    var sending := OutboxSafety.Begin(st) + OutboxSafety.SendOnce(st, 1, st.begun);
    SendingArms(st, c);
    GroundRuns(w, sending, st.p);
    var w1 := w.(db := OutboxSafety.Run(w.db, sending, st.p));
    RoundTripRuns(w1, st, c, local, code);
    WorldRunConcat(w, Grounds(sending), RoundTrip(st, c, local, done, code), st.p);
    var r := EvAck(OutboxOutcomes.AnswerOf(st, done, code));
    OutboxOutcomes.AnswerDecides(st, done, code);
    OutboxSafety.RunConcat(OutboxSafety.EMPTY, sending, [r], st.p);
    OutboxSafety.RunOne(w1.db, r, st.p);
    hide Step, Executable, Seen, WorldRun, OutboxSafety.Run, OutboxSafety.Begin, OutboxSafety.SendOnce, Grounds, RoundTrip;
  }

  lemma SendingArms(st: OutboxSafety.Story, c: TcCommand)
    requires OutboxSafety.Tellable(st) && c.key == st.key && c.target == st.link.instance
    ensures var sending := OutboxSafety.Begin(st) + OutboxSafety.SendOnce(st, 1, st.begun);
      && (forall e :: e in sending ==> GroundOnly(e))
      && Carries(OutboxSafety.Run(OutboxSafety.EMPTY, sending, st.p), AttemptId(st.key, 1), c)
  {
    OutboxSafety.FirstRuns(st);
    hide OutboxSafety.Run;
  }

  /** Once a final record is compacted a further copy is refused without being looked into, and nothing is done. */
  lemma CompactedCopyIsRefused(w: World, i: nat, related: bool, c: TcCommand, local: Local, p: Policy)
    requires i in w.sats && w.sats[i].me == i && c in w.up && c.target == i && c.key in w.sats[i].journal.full
    requires var state := w.sats[i].journal.full[c.key].state; state != RECORD_ACCEPTED && (state != DISPATCHED || related)
    ensures var d := WorldRun(w, [CompactAt(i, c.key, related), Arrive(c, i, local)], p);
      && i in d.sats && c.key !in d.sats[i].journal.full && Seen(d.sats[i].journal, c.key)
      && d.sats[i].acted == w.sats[i].acted && d.sats[i].config == w.sats[i].config
      && d.down == w.down + {Telemetry(i, c.key, false)} && d.db == w.db
  {
    CompactableIff(w.sats[i], c.key, related);
    var w1 := WorldStep(w, CompactAt(i, c.key, related), p);
    SeenCommandOutcome(w1.sats[i], c, local);
    var w2 := WorldStep(w1, Arrive(c, i, local), p);
    assert [CompactAt(i, c.key, related), Arrive(c, i, local)][1..] == [Arrive(c, i, local)] && [Arrive(c, i, local)][1..] == [];
    hide WorldStep, Handle;
    assert WorldRun(w2, [], p) == w2;
    assert WorldRun(w1, [Arrive(c, i, local)], p) == w2;
  }
}
