/** What the command tables guarantee over whole runs of transactions. */
module OutboxSafety {
  import opened Bytes
  import opened OutboxModel
  import opened OutboxInvariant

  const EMPTY: Db := Db(map[], map[], map[], map[], map[], None)

  ghost function Run(db: Db, events: seq<Event>, p: Policy): Db
    decreases |events|
  {
    if events == [] then db else Run(Step(db, events[0], p), events[1..], p)
  }

  lemma {:induction false} RunKeepsInv(db: Db, events: seq<Event>, p: Policy)
    requires Inv(db, p)
    ensures Inv(Run(db, events, p), p)
    decreases |events|
  {
    hide Inv, Step;
    if events != [] {
      StepKeepsInv(db, events[0], p);
      RunKeepsInv(Step(db, events[0], p), events[1..], p);
    }
  }

  predicate ArmedOnActive(db: Db, a: Attempt) {
    Armed(a.result) && a.target in db.instances && db.instances[a.target].active
  }

  lemma EmptyIsFine(p: Policy)
    ensures Inv(EMPTY, p)
  {
    assert LiveKeys(EMPTY) == {};
  }

  /**
   After any transactions whatever: rows and commands agree and are finished together, leases
   exist only while dispatching and acknowledgement deadlines only once sent, attempts are
   numbered without gaps within the limit, live rows fit the capacity, and every armed attempt
   of the active spacecraft carries the bound link.
   */
  lemma EveryRunIsSafe(events: seq<Event>, p: Policy)
    ensures var db := Run(EMPTY, events, p);
      && (forall k :: k in db.outbox <==> k in db.commands)
      && (forall k :: k in db.outbox ==>
            && (db.outbox[k].lease.Some? <==> db.outbox[k].state == DISPATCHING)
            && (db.outbox[k].ackDeadline.Some? ==> db.outbox[k].state == SENT)
            && k in db.commands && (CommandTerminal(db.commands[k].state) <==> !Live(db.outbox[k].state))
            && (forall n: nat :: AttemptId(k, n) in db.attempts <==> 1 <= n <= db.outbox[k].attempts)
            && db.outbox[k].attempts <= p.maxAttempts)
      && |LiveKeys(db)| <= p.capacity
      && (forall id :: id in db.attempts && ArmedOnActive(db, db.attempts[id]) ==>
            IsBound(db, db.attempts[id].target, db.attempts[id].generation, db.attempts[id].session))
  {
    EmptyIsFine(p);
    RunKeepsInv(EMPTY, events, p);
    var db := Run(EMPTY, events, p);
    hide Run;
    LinkOfActive(db, p);
    hide OwnersInv, LinkInv, LiveKeys;
  }

  lemma LinkOfActive(db: Db, p: Policy)
    requires Inv(db, p)
    ensures forall id :: id in db.attempts && ArmedOnActive(db, db.attempts[id]) ==>
              IsBound(db, db.attempts[id].target, db.attempts[id].generation, db.attempts[id].session)
  {
    hide RowsInv, NumberedInv, OwnersInv, RowsOnLink, LiveKeys, Armed;
  }

  // ---------------------------------------------------------------- finished work

  predicate Prunes(ev: Event, k: Key) {
    ev.EvRetire? && ev.key == k
  }

  ghost predicate Finished(db: Db, k: Key) {
    Known(db, k) && !Live(db.outbox[k].state) && CommandTerminal(db.commands[k].state)
  }

  ghost predicate Untouched(db: Db, d: Db, k: Key) {
    Known(db, k) && Known(d, k) && d.outbox[k] == db.outbox[k] && d.commands[k] == db.commands[k]
  }

  lemma BulkLeavesFinished(db: Db, ev: Event, k: Key, p: Policy)
    requires Finished(db, k) && (ev.EvContact? || ev.EvBind? || ev.EvReconcile?)
    ensures Untouched(db, Step(db, ev, p), k)
  {
    hide Backoff, RevokeAttempts;
  }

  lemma AckLeavesFinished(db: Db, ev: Event, k: Key, p: Policy)
    requires Finished(db, k) && ev.EvAck?
    ensures Untouched(db, Step(db, ev, p), k)
  {
    hide Correlated, AckAttempts;
  }

  lemma SendLeavesFinished(db: Db, ev: Event, k: Key, p: Policy)
    requires Finished(db, k)
    requires ev.EvClaim? || ev.EvPrepare? || ev.EvMarkSent? || ev.EvMarkNotSent? || ev.EvAttemptNotSent? || ev.EvRollback?
    ensures Untouched(db, Step(db, ev, p), k)
  {
    hide Backoff, RolledBackRow;
  }

  lemma AdmitLeavesFinished(db: Db, ev: Event, k: Key, p: Policy)
    requires Finished(db, k) && !Prunes(ev, k) && (ev.EvAdmit? || ev.EvRetire?)
    ensures Untouched(db, Step(db, ev, p), k)
  {
    hide OwnedBy, LiveKeys, NewRow;
  }

  lemma FinishedFromInv(db: Db, k: Key, p: Policy)
    requires Inv(db, p) && k in db.outbox && !Live(db.outbox[k].state)
    ensures Finished(db, k)
  {
    assert RowsInv(db);
    hide NumberedInv, OwnersInv, LinkInv, LiveKeys;
  }

  /** No transaction but pruning touches a finished row or its command. */
  lemma FinishedIsAbsorbing(db: Db, ev: Event, k: Key, p: Policy)
    requires Inv(db, p) && k in db.outbox && !Live(db.outbox[k].state) && !Prunes(ev, k)
    ensures Untouched(db, Step(db, ev, p), k)
  {
    FinishedFromInv(db, k, p);
    hide *;
    match ev
    case EvContact(_, _, _) => BulkLeavesFinished(db, ev, k, p);
    case EvBind(_, _) => BulkLeavesFinished(db, ev, k, p);
    case EvReconcile(_) => BulkLeavesFinished(db, ev, k, p);
    case EvAck(_) => AckLeavesFinished(db, ev, k, p);
    case EvAdmit(_, _, _, _) => AdmitLeavesFinished(db, ev, k, p);
    case EvRetire(_, _, _) => AdmitLeavesFinished(db, ev, k, p);
    case _ => SendLeavesFinished(db, ev, k, p);
  }

  lemma {:induction false} FinishedForGood(db: Db, events: seq<Event>, k: Key, p: Policy)
    requires Inv(db, p) && k in db.outbox && !Live(db.outbox[k].state)
    requires forall e :: e in events ==> !Prunes(e, k)
    ensures k in Run(db, events, p).outbox && Run(db, events, p).outbox[k] == db.outbox[k]
    decreases |events|
  {
    hide Inv, Step;
    if events != [] {
      StepKeepsInv(db, events[0], p);
      FinishedIsAbsorbing(db, events[0], k, p);
      assert Untouched(db, Step(db, events[0], p), k);
      FinishedForGood(Step(db, events[0], p), events[1..], k, p);
    }
  }

  // ---------------------------------------------------------------- acknowledgements

  lemma CorrelatedMeansBound(db: Db, k: Key, c: Correlation, p: Policy)
    requires Inv(db, p) && k in db.outbox && Correlated(db, k, c)
    ensures IsBound(db, c.source, c.generation, c.session)
  {
    var n :| CarriesLink(db, AttemptId(k, n), c);
    assert AttemptsOnLink(db) && RowOnLink(db, db.outbox[k]);
    hide RowsInv, NumberedInv, OwnersInv, LiveKeys;
    assert OnBoundLink(db.bound, db.attempts[AttemptId(k, n)]);
  }

  /** A receipt that names any link but the bound one changes nothing at all. */
  lemma OldLinkAckChangesNothing(db: Db, r: Receipt, p: Policy)
    requires Inv(db, p) && r.correlation.Some?
    requires !IsBound(db, r.correlation.value.source, r.correlation.value.generation, r.correlation.value.session)
    ensures Or(IngestAck(db, r), db) == db
  {
    hide Inv, Correlated;
    if r.key in db.outbox && Correlated(db, r.key, r.correlation.value) {
      CorrelatedMeansBound(db, r.key, r.correlation.value, p);
    }
  }

  /**
   A correlated success receipt acknowledges a command exactly when the row is waiting for one
   and a sent attempt of it carries the receipt's link identity.
   */
  lemma AckIffSentOnThatLink(db: Db, r: Receipt, p: Policy)
    requires Inv(db, p) && r.correlation.Some? && r.success && r.key in db.outbox && db.outbox[r.key].state != ACKED
    ensures var d := Or(IngestAck(db, r), db);
      && r.key in d.outbox && r.key in d.commands
      && (d.outbox[r.key].state == ACKED <==>
            db.outbox[r.key].state == SENT && db.outbox[r.key].target == r.correlation.value.source
            && SentOn(db, r.key, r.correlation.value))
      && (d.outbox[r.key].state == ACKED ==> d.commands[r.key].state == COMMAND_ACKED)
      && (d.outbox[r.key].state == ACKED ==>
            forall n :: HasResult(db, AttemptId(r.key, n), WAS_SENT) ==> HasResult(d, AttemptId(r.key, n), WAS_ACKED))
      && (d.outbox[r.key].state != ACKED ==> d == db)
  {
    assert RowsInv(db);
    hide NumberedInv, OwnersInv, LinkInv, LiveKeys, SentOn;
  }

  /** The receipt would acknowledge the row, for this attempt's link. */
  ghost predicate Acknowledges(db: Db, r: Receipt, id: AttemptId) {
    && r.key == id.key && r.success && r.correlation.Some? && CarriesLink(db, id, r.correlation.value)
    && Known(db, id.key) && Or(IngestAck(db, r), db).outbox.Keys == db.outbox.Keys
    && db.outbox[id.key].state != ACKED && Or(IngestAck(db, r), db).outbox[id.key].state == ACKED
  }

  predicate OtherArmed(db: Db, k: Key, number: nat, m: nat) {
    m != number && HasResult(db, AttemptId(k, m), WAS_SENT)
  }

  /** A receipt for another attempt is dropped by the rollback: it would have acknowledged, and changes nothing any more. */
  ghost predicate Dropped(db: Db, d: Db, r: Receipt, k: Key, number: nat, m: nat) {
    m != number && Acknowledges(db, r, AttemptId(k, m)) && IngestAck(d, r) == Ok(d)
  }

  /** The receipt that answers an attempt on the link it was sent on. */
  function AnswerTo(db: Db, id: AttemptId): Receipt
    requires id in db.attempts
  {
    var a := db.attempts[id];
    Receipt(id.key, true, MAX_ATTEMPTS, Some(Correlation(a.target, a.generation, a.session)))
  }

  lemma SentIsAnswered(db: Db, k: Key, m: nat, p: Policy)
    requires Inv(db, p) && Known(db, k) && db.outbox[k].state == SENT && HasResult(db, AttemptId(k, m), WAS_SENT)
    ensures Acknowledges(db, AnswerTo(db, AttemptId(k, m)), AttemptId(k, m))
  {
    assert NumberedInv(db, p);
    var r := AnswerTo(db, AttemptId(k, m));
    assert CarriesLink(db, AttemptId(k, m), r.correlation.value);
    hide RowsInv, OwnersInv, LinkInv, LiveKeys, AckAttempts;
  }

  lemma RolledBackDropsReceipts(db: Db, k: Key, number: nat, reason: string, now: int, r: Receipt, p: Policy)
    requires RollbackSent(db, k, number, reason, now, p) != db && r.key == k && r.correlation.Some?
    ensures IngestAck(RollbackSent(db, k, number, reason, now, p), r) == Ok(RollbackSent(db, k, number, reason, now, p))
  {
    hide Backoff, SentOn;
  }

  /**
   A rollback that takes effect takes the row out of SENT. It drops a receipt that would have
   acknowledged another attempt exactly when another attempt of the request is still armed.
   */
  lemma RollbackDropsAckIff(db: Db, k: Key, number: nat, reason: string, now: int, p: Policy)
    requires Inv(db, p) && RollbackSent(db, k, number, reason, now, p) != db
    ensures (exists r, m :: Dropped(db, RollbackSent(db, k, number, reason, now, p), r, k, number, m))
       <==> (exists m :: OtherArmed(db, k, number, m))
  {
    var d := RollbackSent(db, k, number, reason, now, p);
    assert Known(db, k) && db.outbox[k].state == SENT;
    hide RollbackSent, Inv, IngestAck;
    if exists r, m :: Dropped(db, d, r, k, number, m) {
      var r, m :| Dropped(db, d, r, k, number, m);
      assert OtherArmed(db, k, number, m);
    }
    if exists m :: OtherArmed(db, k, number, m) {
      var m :| OtherArmed(db, k, number, m);
      var r := AnswerTo(db, AttemptId(k, m));
      SentIsAnswered(db, k, m, p);
      RolledBackDropsReceipts(db, k, number, reason, now, r, p);
      assert Dropped(db, d, r, k, number, m);
    }
  }

  // ---------------------------------------------------------------- how two attempts come to be armed

  /** One command of the bound spacecraft, sent, not answered in time, and sent again. */
  datatype Story = Story(key: Key, link: Binding, owner: Owner, body: seq<byte>, name: string, begun: int, mode: Mode, p: Policy)

  predicate Tellable(st: Story) {
    && st.link.contact == CONTACT_OPEN && 2 <= st.p.maxAttempts && 1 <= st.p.capacity
    && 1 <= st.p.leaseDuration && 1 <= st.p.ackTimeout
  }

  /** The moment the first attempt is overdue, and the moment the retry is due. */
  function Overtime(st: Story): int {
    st.begun + st.p.ackTimeout
  }

  function RetryAt(st: Story): int {
    Overtime(st) + Backoff(st.p, 1)
  }

  function Lease(st: Story): Claimed {
    Claimed(st.key, st.link.instance, st.name, st.link)
  }

  function FirstRow(st: Story): Row {
    Row(st.link.instance, OUTBOX_PENDING, 0, st.begun, None, None, RetryAt(st) + 1, st.begun, None)
  }

  /** The tables with this row and these attempts. */
  function With(st: Story, row: Row, attempts: map<AttemptId, Attempt>): Db {
    Db(map[st.key := row], map[st.key := Command(st.link.instance, st.owner, st.body, st.mode, ADMITTED)], map[], attempts,
       map[st.link.instance := Instance(st.link.generation, st.link.session, true, CONTACT_OPEN)],
       Some(Bound(st.link.instance, st.link.generation, st.link.session)))
  }

  function OnLink(st: Story, r: SendResult): Attempt {
    Attempt(st.link.instance, st.link.generation, st.link.session, r)
  }

  function Begin(st: Story): seq<Event> {
    [EvBind(st.link, st.begun),
     EvAdmit(Admission(st.owner, st.body, st.link.instance, st.mode, RetryAt(st) + 1), true, st.key, st.begun)]
  }

  /** Claim, persist and arm attempt number m at one moment. */
  function SendOnce(st: Story, m: nat, at: int): seq<Event> {
    [EvClaim(st.key, st.name, at, None), EvPrepare(Lease(st), at), EvMarkSent(st.key, st.name, m, at)]
  }

  function Told(st: Story): seq<Event> {
    Begin(st) + SendOnce(st, 1, st.begun) + [EvReconcile(Overtime(st))] + SendOnce(st, 2, RetryAt(st))
  }

  lemma {:induction false} RunConcat(db: Db, a: seq<Event>, b: seq<Event>, p: Policy)
    ensures Run(db, a + b, p) == Run(Run(db, a, p), b, p)
    decreases |a|
  {
    hide Step;
    if a == [] {
      assert a + b == b;
    } else {
      assert (a + b)[1..] == a[1..] + b;
      RunConcat(Step(db, a[0], p), a[1..], b, p);
    }
  }

  lemma RunOne(db: Db, ev: Event, p: Policy)
    ensures Run(db, [ev], p) == Step(db, ev, p)
  {
    hide Step;
    assert [ev][1..] == [];
  }

  lemma BeginRuns(st: Story)
    requires Tellable(st)
    ensures Run(EMPTY, Begin(st), st.p) == With(st, FirstRow(st), map[])
  {
    hide Backoff;
    var bound := Step(EMPTY, Begin(st)[0], st.p);
    assert Begin(st) == [Begin(st)[0]] + [Begin(st)[1]];
    RunConcat(EMPTY, [Begin(st)[0]], [Begin(st)[1]], st.p);
    RunOne(EMPTY, Begin(st)[0], st.p);
    RunOne(bound, Begin(st)[1], st.p);
    assert bound == Db(map[], map[], map[], map[], With(st, FirstRow(st), map[]).instances, With(st, FirstRow(st), map[]).bound);
    assert LiveKeys(bound) == {} && forall k :: !Owns(bound, st.owner, k);
    assert OwnedBy(bound, st.owner).None?;
    hide OwnedBy, LiveKeys;
    assert Step(bound, Begin(st)[1], st.p) == With(st, FirstRow(st), map[]);
  }

  function LeasedRow(st: Story, row: Row, at: int): Row {
    row.(state := DISPATCHING, lease := Some(LeaseMark(st.name, at + st.p.leaseDuration)))
  }

  function AwaitingRow(st: Story, row: Row, at: int): Row {
    row.(state := SENT, ackDeadline := Some(at + st.p.ackTimeout), lease := None, error := None)
  }

  lemma ClaimRuns(st: Story, row: Row, sent: map<AttemptId, Attempt>, at: int)
    requires Tellable(st) && row.state == OUTBOX_PENDING && row.target == st.link.instance
    requires row.availableAt <= at < row.expiresAt
    ensures Step(With(st, row, sent), EvClaim(st.key, st.name, at, None), st.p) == With(st, LeasedRow(st, row, at), sent)
  {
  }

  lemma PrepareRuns(st: Story, row: Row, sent: map<AttemptId, Attempt>, at: int)
    requires Tellable(st) && row.target == st.link.instance && row.attempts < st.p.maxAttempts
    ensures Step(With(st, LeasedRow(st, row, at), sent), EvPrepare(Lease(st), at), st.p)
         == With(st, LeasedRow(st, row, at).(attempts := row.attempts + 1),
                 sent[AttemptId(st.key, row.attempts + 1) := OnLink(st, PERSISTED_NOT_SENT)])
  {
  }

  lemma ArmRuns(st: Story, row: Row, sent: map<AttemptId, Attempt>, m: nat, at: int)
    requires Tellable(st)
    ensures Step(With(st, LeasedRow(st, row, at), sent[AttemptId(st.key, m) := OnLink(st, PERSISTED_NOT_SENT)]),
                 EvMarkSent(st.key, st.name, m, at), st.p)
         == With(st, AwaitingRow(st, row, at), sent[AttemptId(st.key, m) := OnLink(st, WAS_SENT)])
  {
  }

  lemma RunThree(db: Db, a: Event, b: Event, c: Event, p: Policy)
    ensures Run(db, [a, b, c], p) == Step(Step(Step(db, a, p), b, p), c, p)
  {
    hide Step;
    assert [a, b, c] == [a] + ([b] + [c]);
    RunConcat(db, [a], [b] + [c], p);
    RunOne(db, a, p);
    RunConcat(Step(db, a, p), [b], [c], p);
    RunOne(Step(db, a, p), b, p);
    RunOne(Step(Step(db, a, p), b, p), c, p);
  }

  /** A due pending row goes out under the next attempt number. */
  lemma SendRuns(st: Story, row: Row, sent: map<AttemptId, Attempt>, at: int)
    requires Tellable(st) && row.state == OUTBOX_PENDING && row.target == st.link.instance && row.lease.None?
    requires row.availableAt <= at < row.expiresAt && row.attempts < st.p.maxAttempts
    ensures Run(With(st, row, sent), SendOnce(st, row.attempts + 1, at), st.p)
         == With(st, row.(state := SENT, attempts := row.attempts + 1, ackDeadline := Some(at + st.p.ackTimeout), error := None),
                 sent[AttemptId(st.key, row.attempts + 1) := OnLink(st, WAS_SENT)])
  {
    var m := row.attempts + 1;
    ClaimRuns(st, row, sent, at);
    PrepareRuns(st, row, sent, at);
    assert LeasedRow(st, row.(attempts := m), at) == LeasedRow(st, row, at).(attempts := m);
    ArmRuns(st, row.(attempts := m), sent, m, at);
    RunThree(With(st, row, sent), EvClaim(st.key, st.name, at, None), EvPrepare(Lease(st), at), EvMarkSent(st.key, st.name, m, at), st.p);
    hide Step, Run, With;
  }

  function FirstSent(st: Story): Row {
    FirstRow(st).(state := SENT, attempts := 1, ackDeadline := Some(Overtime(st)))
  }

  function Requeued(st: Story): Row {
    FirstSent(st).(state := OUTBOX_PENDING, availableAt := RetryAt(st), ackDeadline := None)
  }

  function SecondSent(st: Story): Row {
    Requeued(st).(state := SENT, attempts := 2, ackDeadline := Some(RetryAt(st) + st.p.ackTimeout))
  }

  function FirstArmed(st: Story): map<AttemptId, Attempt> {
    map[AttemptId(st.key, 1) := OnLink(st, WAS_SENT)]
  }

  lemma FirstRuns(st: Story)
    requires Tellable(st)
    ensures Run(EMPTY, Begin(st) + SendOnce(st, 1, st.begun), st.p) == With(st, FirstSent(st), FirstArmed(st))
  {
    BeginRuns(st);
    SendRuns(st, FirstRow(st), map[], st.begun);
    assert FirstArmed(st) == map[][AttemptId(st.key, 1) := OnLink(st, WAS_SENT)];
    RunConcat(EMPTY, Begin(st), SendOnce(st, 1, st.begun), st.p);
    hide Step, Run, With, Backoff, Begin, SendOnce;
  }

  lemma SecondRuns(st: Story)
    requires Tellable(st)
    ensures Run(With(st, FirstSent(st), FirstArmed(st)), [EvReconcile(Overtime(st))] + SendOnce(st, 2, RetryAt(st)), st.p)
         == With(st, SecondSent(st), FirstArmed(st)[AttemptId(st.key, 2) := OnLink(st, WAS_SENT)])
  {
    var begin := With(st, FirstSent(st), FirstArmed(st));
    ReconcileRequeues(st);
    SendRuns(st, Requeued(st), FirstArmed(st), RetryAt(st));
    RunConcat(begin, [EvReconcile(Overtime(st))], SendOnce(st, 2, RetryAt(st)), st.p);
    RunOne(begin, EvReconcile(Overtime(st)), st.p);
    hide Step, Run, With, Backoff, SendOnce, FirstArmed;
  }

  lemma ToldRuns(st: Story)
    requires Tellable(st)
    ensures Run(EMPTY, Told(st), st.p) == With(st, SecondSent(st), FirstArmed(st)[AttemptId(st.key, 2) := OnLink(st, WAS_SENT)])
  {
    FirstRuns(st);
    SecondRuns(st);
    hide Run, With, Begin, SendOnce, FirstArmed, FirstSent, SecondSent, RetryAt, Overtime;
    var one, two := Begin(st) + SendOnce(st, 1, st.begun), [EvReconcile(Overtime(st))] + SendOnce(st, 2, RetryAt(st));
    RunConcat(EMPTY, one, two, st.p);
    assert Told(st) == one + two;
  }

  /** From the empty tables to a request with two armed attempts: the first was not answered in time. */
  lemma TwoAttemptsGetArmed(st: Story)
    requires Tellable(st)
    ensures var db := Run(EMPTY, Told(st), st.p);
      && Inv(db, st.p) && Known(db, st.key) && db.outbox[st.key].state == SENT
      && HasResult(db, AttemptId(st.key, 1), WAS_SENT) && HasResult(db, AttemptId(st.key, 2), WAS_SENT)
  {
    ToldRuns(st);
    hide Run, Inv, Told, Backoff;
    EmptyIsFine(st.p);
    RunKeepsInv(EMPTY, Told(st), st.p);
  }

  lemma ReconcileRequeues(st: Story)
    requires Tellable(st)
    ensures Step(With(st, FirstSent(st), FirstArmed(st)), EvReconcile(Overtime(st)), st.p) == With(st, Requeued(st), FirstArmed(st))
  {
    hide Backoff;
  }

  /** Rolling back the first of two armed attempts drops the receipt for the second. */
  lemma RollbackOfOldAttemptDropsAck(st: Story, reason: string, now: int)
    requires Tellable(st)
    ensures var db := Run(EMPTY, Told(st), st.p);
      var d := RollbackSent(db, st.key, 1, reason, now, st.p);
      && AttemptId(st.key, 2) in db.attempts
      && Dropped(db, d, AnswerTo(db, AttemptId(st.key, 2)), st.key, 1, 2)
  {
    TwoAttemptsGetArmed(st);
    var db := Run(EMPTY, Told(st), st.p);
    hide Run, Told;
    SentIsAnswered(db, st.key, 2, st.p);
    hide Inv;
    RollbackTakesEffect(db, st.key, 1, reason, now, st.p);
    RolledBackDropsReceipts(db, st.key, 1, reason, now, AnswerTo(db, AttemptId(st.key, 2)), st.p);
  }

  lemma RollbackTakesEffect(db: Db, k: Key, number: nat, reason: string, now: int, p: Policy)
    requires Known(db, k) && db.outbox[k].state == SENT && HasResult(db, AttemptId(k, number), WAS_SENT)
    ensures RollbackSent(db, k, number, reason, now, p) != db
  {
    hide Backoff;
    assert RollbackSent(db, k, number, reason, now, p).attempts[AttemptId(k, number)].result != WAS_SENT;
  }

  // ---------------------------------------------------------------- rebinding

  /** A new session of the bound spacecraft leaves each live command pending under its own key, with no armed attempt. */
  lemma RebindReplaysLiveWork(db: Db, b: Binding, now: int, p: Policy)
    requires Inv(db, p) && Bind(db, b, now).Ok? && db.bound.Some? && db.bound.value.instance == b.instance
    requires db.bound.value.generation != b.generation || db.bound.value.session != b.session
    ensures var d := Bind(db, b, now).value;
      && d.outbox.Keys == db.outbox.Keys && d.commands == db.commands
      && (forall k :: k in db.outbox && db.outbox[k].target == b.instance && Live(db.outbox[k].state) ==>
            d.outbox[k].state == OUTBOX_PENDING && d.outbox[k].availableAt == now && d.outbox[k].attempts == db.outbox[k].attempts)
      && (forall k :: k in db.outbox && !(db.outbox[k].target == b.instance && Live(db.outbox[k].state)) ==> d.outbox[k] == db.outbox[k])
      && (forall id :: id in d.attempts && d.attempts[id].target == b.instance ==> !Armed(d.attempts[id].result))
  {
    hide Inv;
  }

  /** Once retired, always retired, and a retired spacecraft has no live work. */
  lemma RetiredStaysQuiet(db: Db, ev: Event, i: nat, p: Policy)
    requires Inv(db, p) && i in db.instances && !db.instances[i].active
    ensures i in Step(db, ev, p).instances && !Step(db, ev, p).instances[i].active
    ensures forall k :: k in Step(db, ev, p).outbox && Step(db, ev, p).outbox[k].target == i ==> !Live(Step(db, ev, p).outbox[k].state)
  {
    StepKeepsInv(db, ev, p);
    RetiredStays(db, ev, i, p);
    var d := Step(db, ev, p);
    hide Step;
    NoWorkOnRetired(d, i, p);
  }

  lemma RetiredStays(db: Db, ev: Event, i: nat, p: Policy)
    requires Inv(db, p) && i in db.instances && !db.instances[i].active
    ensures i in Step(db, ev, p).instances && !Step(db, ev, p).instances[i].active
  {
    hide Inv, RevokeAttempts, FailCommands, ContactRows, Judge, ReconciledRow, ReconciledCommand, Backoff, SentOn, AckAttempts, OwnedBy, LiveKeys;
  }

  lemma NoWorkOnRetired(d: Db, i: nat, p: Policy)
    requires Inv(d, p) && i in d.instances && !d.instances[i].active
    ensures forall k :: k in d.outbox && d.outbox[k].target == i ==> !Live(d.outbox[k].state)
  {
    assert RowsOnLink(d);
    hide RowsInv, NumberedInv, OwnersInv, AttemptsOnLink, LiveKeys;
  }

  lemma {:induction false} RetiredForGood(db: Db, events: seq<Event>, i: nat, p: Policy)
    requires Inv(db, p) && i in db.instances && !db.instances[i].active
    ensures var d := Run(db, events, p);
      && i in d.instances && !d.instances[i].active
      && forall k :: k in d.outbox && d.outbox[k].target == i ==> !Live(d.outbox[k].state)
    decreases |events|
  {
    hide Inv, Step;
    if events == [] {
      NoWorkOnRetired(db, i, p);
    } else {
      StepKeepsInv(db, events[0], p);
      RetiredStaysQuiet(db, events[0], i, p);
      RetiredForGood(Step(db, events[0], p), events[1..], i, p);
    }
  }

  // ---------------------------------------------------------------- reconcile

  predicate Overdue(row: Row, now: int) {
    && Live(row.state)
    && (row.expiresAt <= now
        || (row.state == DISPATCHING && row.lease.Some? && row.lease.value.expiresAt <= now)
        || (row.state == SENT && row.ackDeadline.Some? && row.ackDeadline.value <= now))
  }

  lemma ReconcileRowOnTime(db: Db, d: Db, k: Key, now: int, p: Policy)
    requires (forall j :: j in db.outbox ==> j in db.commands) && k in db.outbox && d == Reconcile(db, now, p)
    requires RowInv(db.outbox[k], db.commands[k])
    ensures Known(d, k) && !Overdue(d.outbox[k], now)
    ensures !Overdue(db.outbox[k], now) ==> d.outbox[k] == db.outbox[k] && d.commands[k] == db.commands[k]
  {
    var v := VerdictOf(db, k, now, p);
    assert d.outbox[k] == ReconciledRow(db.outbox[k], v, now, p) && d.commands[k] == ReconciledCommand(db.commands[k], v);
    hide Reconcile, Backoff, ContactIsOpen;
  }

  /** Reconcile leaves nothing overdue, and touches only what was. */
  lemma ReconcileClearsOverdue(db: Db, now: int, p: Policy)
    requires Inv(db, p)
    ensures forall k :: k in db.outbox ==> k in db.commands
    ensures var d := Reconcile(db, now, p);
      && d.outbox.Keys == db.outbox.Keys
      && (forall k :: k in d.outbox ==> !Overdue(d.outbox[k], now))
      && (forall k :: k in db.outbox && !Overdue(db.outbox[k], now) ==> Untouched(db, d, k))
  {
    assert RowsInv(db);
    hide NumberedInv, OwnersInv, LinkInv, LiveKeys, RowInv;
    var d := Reconcile(db, now, p);
    assert d.outbox.Keys == db.outbox.Keys;
    hide Reconcile, Overdue;
    forall k | k in db.outbox
      ensures Known(d, k) && !Overdue(d.outbox[k], now) && (!Overdue(db.outbox[k], now) ==> Untouched(db, d, k))
    {
      ReconcileRowOnTime(db, d, k, now, p);
    }
  }

  lemma ReconcileIdleIsIdentity(db: Db, now: int, p: Policy)
    requires forall k :: k in db.outbox ==> k in db.commands && !Overdue(db.outbox[k], now)
    ensures Reconcile(db, now, p) == db
  {
    hide Backoff, ContactIsOpen;
    forall k | k in db.outbox ensures VerdictOf(db, k, now, p) == Keep {
    }
  }

  /** A second reconcile at the same time does nothing. */
  lemma ReconcileIsIdempotent(db: Db, now: int, p: Policy)
    requires Inv(db, p)
    ensures forall k :: k in db.outbox ==> k in db.commands
    ensures var d := Reconcile(db, now, p);
      (forall k :: k in d.outbox ==> k in d.commands) && Reconcile(d, now, p) == d
  {
    ReconcileClearsOverdue(db, now, p);
    ReconcileKeepsInv(db, now, p);
    var d := Reconcile(db, now, p);
    assert RowsInv(d);
    hide Reconcile, RowsInv, NumberedInv, OwnersInv, LinkInv, LiveKeys;
    ReconcileIdleIsIdentity(d, now, p);
  }

  // ---------------------------------------------------------------- retries and contact

  /** The delay doubles from attempt to attempt and stops at the cap. */
  lemma BackoffDoubles(p: Policy, attempts: nat)
    requires 1 <= attempts
    ensures Backoff(p, attempts + 1) == (if 2 * Backoff(p, attempts) < p.maxBackoff then 2 * Backoff(p, attempts) else p.maxBackoff)
    ensures Backoff(p, attempts) <= Backoff(p, attempts + 1) <= p.maxBackoff
    ensures Backoff(p, 1) == if p.baseBackoff < p.maxBackoff then p.baseBackoff else p.maxBackoff
  {
    var raw := p.baseBackoff * Pow2(attempts - 1);
    assert Pow2(attempts) == 2 * Pow2(attempts - 1);
    assert p.baseBackoff * Pow2(attempts) == 2 * raw;
    assert Pow2(0) == 1;
  }

  /** An unanswered command with attempts left waits out its delay: nobody can claim it before. */
  lemma RetryWaits(db: Db, k: Key, now: int, at: int, filter: Option<Binding>, p: Policy)
    requires Inv(db, p) && Known(db, k) && VerdictOf(db, k, now, p).Retry? && at < now + Backoff(p, db.outbox[k].attempts)
    ensures forall j :: j in db.outbox ==> j in db.commands
    ensures var d := Reconcile(db, now, p);
      && k in d.outbox && d.outbox[k].attempts == db.outbox[k].attempts < p.maxAttempts && Live(d.outbox[k].state)
      && !Claimable(d, k, at, filter)
  {
    assert RowsInv(db);
    hide NumberedInv, OwnersInv, LinkInv, LiveKeys, RowInv, Backoff, ContactIsOpen;
  }

  /** The spacecraft is in contact. */
  predicate InContact(db: Db, instance: nat) {
    instance in db.instances && db.instances[instance].contact == CONTACT_OPEN
  }

  /** A lease that has run out, or an acknowledgement that is overdue. */
  predicate LateLease(row: Row, now: int) {
    row.state == DISPATCHING && row.lease.Some? && row.lease.value.expiresAt <= now
  }

  predicate LateAck(row: Row, now: int) {
    row.state == SENT && row.ackDeadline.Some? && row.ackDeadline.value <= now
  }

  /** What a late row becomes, told from its command, its spacecraft's contact and its attempts. */
  predicate LateOutcome(contact: bool, row: Row, c: Command, row': Row, c': Command, now: int, p: Policy) {
    var spent := LateAck(row, now) && row.attempts >= p.maxAttempts;
    if spent || (c.mode == Immediate && !contact) then
      && row'.state == DELIVERY_FAILED && row'.error == Some(if spent then MAX_ATTEMPTS else CONTACT_LOST)
      && row'.lease.None? && row'.ackDeadline.None? && c' == c.(state := FAILED)
    else
      && (row'.state == HELD_NO_CONTACT <==> c.mode == NextContact && !contact)
      && (row'.state == OUTBOX_PENDING <==> contact)
      && row'.availableAt == (if LateAck(row, now) then now + Backoff(p, row.attempts) else row.availableAt)
      && row'.lease.None? && row'.ackDeadline.None? && row'.error == row.error && c' == c
  }

  /** An expired row ends with its command; a late one is held, requeued or given up; any other stays. */
  predicate RowOutcome(contact: bool, row: Row, c: Command, row': Row, c': Command, now: int, p: Policy) {
    && row'.target == row.target && row'.attempts == row.attempts && row'.expiresAt == row.expiresAt && row'.createdAt == row.createdAt
    && (if Live(row.state) && row.expiresAt <= now then
          row'.state == EXPIRED && row'.error == Some(TIME_EXPIRED) && c' == c.(state := FAILED)
        else if LateLease(row, now) || LateAck(row, now) then LateOutcome(contact, row, c, row', c', now, p)
        else row' == row && c' == c)
  }

  lemma JudgedOutcome(row: Row, c: Command, contact: bool, now: int, p: Policy)
    requires RowInv(row, c)
    ensures var v := Judge(row, c.mode, contact, now, p);
      RowOutcome(contact, row, c, ReconciledRow(row, v, now, p), ReconciledCommand(c, v), now, p)
  {
    hide Backoff;
  }

  lemma ReconciledAt(db: Db, k: Key, now: int, p: Policy)
    requires (forall j :: j in db.outbox ==> j in db.commands) && k in db.outbox
    ensures var d, v := Reconcile(db, now, p), Judge(db.outbox[k], db.commands[k].mode, InContact(db, db.outbox[k].target), now, p);
      && Known(d, k) && d.instances == db.instances
      && d.outbox[k] == ReconciledRow(db.outbox[k], v, now, p) && d.commands[k] == ReconciledCommand(db.commands[k], v)
  {
    hide Judge, ReconciledRow, ReconciledCommand;
  }

  /** What a reconcile does to every row, told from the row, its command and its spacecraft's contact. */
  lemma ReconcileOutcome(db: Db, k: Key, now: int, p: Policy)
    requires Inv(db, p) && k in db.outbox
    ensures (forall j :: j in db.outbox ==> j in db.commands) && Known(db, k)
    ensures var d := Reconcile(db, now, p);
      && Known(d, k) && d.instances == db.instances
      && RowOutcome(InContact(db, db.outbox[k].target), db.outbox[k], db.commands[k], d.outbox[k], d.commands[k], now, p)
  {
    assert RowsInv(db);
    assert RowInv(db.outbox[k], db.commands[k]);
    ReconciledAt(db, k, now, p);
    JudgedOutcome(db.outbox[k], db.commands[k], InContact(db, db.outbox[k].target), now, p);
    hide Inv, RowsInv, RowOutcome, Judge, ReconciledRow, ReconciledCommand, Reconcile, RowInv;
  }

  lemma ReconcileThenClaim(db: Db, k: Key, now: int, owner: string, at: int, p: Policy)
    requires forall j :: j in db.outbox ==> j in db.commands
    ensures Run(db, [EvReconcile(now), EvClaim(k, owner, at, None)], p)
         == Or(Claim(Reconcile(db, now, p), k, owner, at, None, p), Reconcile(db, now, p))
  {
    var d := Reconcile(db, now, p);
    assert [EvReconcile(now), EvClaim(k, owner, at, None)] == [EvReconcile(now)] + [EvClaim(k, owner, at, None)];
    RunConcat(db, [EvReconcile(now)], [EvClaim(k, owner, at, None)], p);
    RunOne(db, EvReconcile(now), p);
    RunOne(d, EvClaim(k, owner, at, None), p);
    hide Run, Reconcile, Claim;
  }

  /** A lost lease is no loss: in contact the row can be claimed again as soon as it was due, by anyone, after one reconcile. */
  lemma LateRowIsClaimedAgain(db: Db, k: Key, now: int, owner: string, at: int, p: Policy)
    requires Inv(db, p) && k in db.outbox && InContact(db, db.outbox[k].target) && now < db.outbox[k].expiresAt
    requires LateLease(db.outbox[k], now) || (LateAck(db.outbox[k], now) && db.outbox[k].attempts < p.maxAttempts)
    requires (if LateAck(db.outbox[k], now) then now + Backoff(p, db.outbox[k].attempts) else db.outbox[k].availableAt) <= at
    requires at < db.outbox[k].expiresAt
    ensures var d := Run(db, [EvReconcile(now), EvClaim(k, owner, at, None)], p);
      && k in d.outbox && d.outbox[k].state == DISPATCHING && d.outbox[k].lease == Some(LeaseMark(owner, at + p.leaseDuration))
      && d.outbox[k].attempts == db.outbox[k].attempts
  {
    ReconcileOutcome(db, k, now, p);
    BoundIsActive(db, k, p);
    hide Inv, Reconcile, RowOutcome, Run, Backoff, Claim, InContact;
    RequeuedRowIsClaimed(db, Reconcile(db, now, p), k, now, owner, at, p);
    ReconcileThenClaim(db, k, now, owner, at, p);
  }

  lemma RequeuedRowIsClaimed(db: Db, d: Db, k: Key, now: int, owner: string, at: int, p: Policy)
    requires Known(db, k) && Known(d, k)
    requires RowOutcome(InContact(db, db.outbox[k].target), db.outbox[k], db.commands[k], d.outbox[k], d.commands[k], now, p)
    requires d.instances == db.instances && InContact(db, db.outbox[k].target) && db.instances[db.outbox[k].target].active
    requires now < db.outbox[k].expiresAt
    requires LateLease(db.outbox[k], now) || (LateAck(db.outbox[k], now) && db.outbox[k].attempts < p.maxAttempts)
    requires (if LateAck(db.outbox[k], now) then now + Backoff(p, db.outbox[k].attempts) else db.outbox[k].availableAt) <= at
    requires at < db.outbox[k].expiresAt
    ensures Claim(d, k, owner, at, None, p).Ok?
    ensures var e := Claim(d, k, owner, at, None, p).value;
      && k in e.outbox && e.outbox[k].state == DISPATCHING && e.outbox[k].lease == Some(LeaseMark(owner, at + p.leaseDuration))
      && e.outbox[k].attempts == db.outbox[k].attempts
  {
    hide Backoff;
  }

  /** A row under way is for the active spacecraft. */
  lemma BoundIsActive(db: Db, k: Key, p: Policy)
    requires Inv(db, p) && k in db.outbox && (db.outbox[k].state == DISPATCHING || db.outbox[k].state == SENT)
    ensures db.outbox[k].target in db.instances && db.instances[db.outbox[k].target].active
  {
    assert RowOnLink(db, db.outbox[k]) && InstancesInv(db);
    hide RowsInv, NumberedInv, OwnersInv, LiveKeys, AttemptsOnLink;
  }

  /** Claimed by a dispatcher that is never heard of again, in any mode of delivery. */
  function Forsaken(st: Story, other: string): seq<Event> {
    Begin(st) + [EvClaim(st.key, st.name, st.begun, None)]
    + [EvReconcile(st.begun + st.p.leaseDuration), EvClaim(st.key, other, st.begun + st.p.leaseDuration, None)]
  }

  lemma ForsakenBegins(st: Story)
    requires Tellable(st)
    ensures Run(EMPTY, Begin(st) + [EvClaim(st.key, st.name, st.begun, None)], st.p)
         == With(st, LeasedRow(st, FirstRow(st), st.begun), map[])
  {
    BeginRuns(st);
    ClaimRuns(st, FirstRow(st), map[], st.begun);
    hide Step, Run, With, Backoff, Begin;
    RunConcat(EMPTY, Begin(st), [EvClaim(st.key, st.name, st.begun, None)], st.p);
    RunOne(With(st, FirstRow(st), map[]), EvClaim(st.key, st.name, st.begun, None), st.p);
  }

  /** From the empty tables: the lease of a silent dispatcher runs out and another one gets the row. */
  lemma ForsakenRowIsTakenOver(st: Story, other: string)
    requires Tellable(st) && st.begun + st.p.leaseDuration < FirstRow(st).expiresAt
    ensures var db := Run(EMPTY, Forsaken(st, other), st.p);
      && st.key in db.outbox && db.outbox[st.key].state == DISPATCHING && db.outbox[st.key].lease.Some?
      && db.outbox[st.key].lease.value.owner == other
  {
    hide Run, Inv, Begin, With, LateLease, LateAck, Backoff, LeasedRow, FirstRow, InContact;
    var begun := Begin(st) + [EvClaim(st.key, st.name, st.begun, None)];
    var late := st.begun + st.p.leaseDuration;
    var leased := With(st, LeasedRow(st, FirstRow(st), st.begun), map[]);
    ForsakenBegins(st);
    EmptyIsFine(st.p);
    RunKeepsInv(EMPTY, begun, st.p);
    LeasedIsLate(st, late);
    LateRowIsClaimedAgain(leased, st.key, late, other, late, st.p);
    RunConcat(EMPTY, begun, [EvReconcile(late), EvClaim(st.key, other, late, None)], st.p);
  }

  lemma LeasedIsLate(st: Story, late: int)
    requires Tellable(st) && late == st.begun + st.p.leaseDuration && late < FirstRow(st).expiresAt
    ensures var leased := With(st, LeasedRow(st, FirstRow(st), st.begun), map[]);
      && st.key in leased.outbox && InContact(leased, leased.outbox[st.key].target) && late < leased.outbox[st.key].expiresAt
      && LateLease(leased.outbox[st.key], late) && !LateAck(leased.outbox[st.key], late) && leased.outbox[st.key].availableAt <= late
  {
    hide Backoff;
  }

  /** A contact report is stored for its spacecraft and for no other. */
  lemma ContactIsStored(db: Db, instance: nat, contact: Contact, now: int, p: Policy)
    requires SetContact(db, instance, contact, now, p).Ok?
    ensures instance in db.instances && db.instances[instance].active
    ensures var d := SetContact(db, instance, contact, now, p).value;
      && d.instances.Keys == db.instances.Keys
      && d.instances[instance] == Instance(db.instances[instance].generation, db.instances[instance].session, true, contact)
      && (forall i :: i in db.instances && i != instance ==> d.instances[i] == db.instances[i])
      && d.bound == db.bound && d.attempts == db.attempts && d.markers == db.markers
  {
    hide ContactRows, FailCommands;
  }

  /** The unfinished, unexpired work of one spacecraft. */
  predicate OpenWork(db: Db, k: Key, instance: nat, now: int) {
    Known(db, k) && db.outbox[k].target == instance && Live(db.outbox[k].state) && now < db.outbox[k].expiresAt
  }

  /** What a change of contact leaves of it. */
  predicate SettledFor(row: Row, c: Command, contact: Contact) {
    if contact == CONTACT_OPEN then
      Live(row.state) && (c.mode == NextContact ==> row.state != HELD_NO_CONTACT && (row.state == SENT ==> row.ackDeadline.Some?))
    else if c.mode == Immediate then row.state == DELIVERY_FAILED && c.state == FAILED
    else row.state == HELD_NO_CONTACT || (row.state == SENT && row.ackDeadline.None?)
  }

  lemma RowSettles(db: Db, d: Db, k: Key, instance: nat, contact: Contact, now: int, p: Policy)
    requires RowsInv(db) && instance in db.instances && db.instances[instance].contact != contact
    requires SetContact(db, instance, contact, now, p) == Ok(d) && OpenWork(db, k, instance, now)
    ensures Known(d, k) && SettledFor(d.outbox[k], d.commands[k], contact)
  {
    assert RowInv(db.outbox[k], db.commands[k]);
    hide RowsInv;
  }

  /**
   When contact is lost the spacecraft's immediate commands fail and the others stop where no
   deadline runs; when it opens nothing of the others is held and every sent one has a deadline.
   Commands for other spacecraft are not touched.
   */
  lemma ContactSettlesWork(db: Db, instance: nat, contact: Contact, now: int, p: Policy)
    requires Inv(db, p) && instance in db.instances && db.instances[instance].contact != contact
    requires SetContact(db, instance, contact, now, p).Ok?
    ensures var d := SetContact(db, instance, contact, now, p).value;
      && (forall k :: OpenWork(db, k, instance, now) ==> Known(d, k) && SettledFor(d.outbox[k], d.commands[k], contact))
      && (forall k :: Known(db, k) && db.outbox[k].target != instance ==> Untouched(db, d, k))
  {
    assert RowsInv(db);
    hide NumberedInv, OwnersInv, LinkInv, LiveKeys;
    var d := SetContact(db, instance, contact, now, p).value;
    forall k | OpenWork(db, k, instance, now) ensures Known(d, k) && SettledFor(d.outbox[k], d.commands[k], contact) {
      RowSettles(db, d, k, instance, contact, now, p);
    }
    forall k | Known(db, k) && db.outbox[k].target != instance ensures Untouched(db, d, k) {
      OthersUntouched(db, d, k, instance, contact, now, p);
    }
  }

  lemma OthersUntouched(db: Db, d: Db, k: Key, instance: nat, contact: Contact, now: int, p: Policy)
    requires RowsInv(db) && SetContact(db, instance, contact, now, p) == Ok(d)
    requires Known(db, k) && db.outbox[k].target != instance
    ensures Untouched(db, d, k)
  {
    assert RowInv(db.outbox[k], db.commands[k]);
    hide RowsInv;
  }

  // ---------------------------------------------------------------- idempotent admission

  /** The same principal and Idempotency-Key get the same command back, or a conflict, while it exists. */
  lemma SameOwnerSameCommand(db: Db, k: Key, a: Admission, contact: bool, key: Key, now: int, p: Policy)
    requires Inv(db, p) && k in db.commands && db.commands[k].owner == a.owner
    ensures Admit(db, a, contact, key, now, p)
         == if db.commands[k].digest == a.digest then Ok((db, Replayed(k))) else Err(IdempotencyConflict(k))
  {
    assert Owns(db, a.owner, k);
    assert OwnersInv(db);
    hide RowsInv, NumberedInv, LinkInv, LiveKeys;
    OwnerIsUnique(db, a.owner, k);
  }

  /** After pruning, the retained marker keeps refusing the key until its time is over. */
  lemma PrunedKeyIsRefused(db: Db, k: Key, at: int, retention: nat, a: Admission, contact: bool, key: Key, now: int, p: Policy)
    requires Inv(db, p) && RetireCommand(db, k, at, retention).Ok? && db.commands[k].owner == a.owner && now < at + retention
    ensures var d := RetireCommand(db, k, at, retention).value;
      Admit(d, a, contact, key, now, p) == if db.commands[k].digest == a.digest then Err(KeyRetired(k)) else Err(IdempotencyConflict(k))
  {
    var d := RetireCommand(db, k, at, retention).value;
    assert OwnersInv(db);
    hide RowsInv, NumberedInv, LinkInv, LiveKeys;
    forall j ensures !Owns(d, a.owner, j) {
    }
  }
}
