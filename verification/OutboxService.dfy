/** The command tables as the outbox service updates them in place. */
module OutboxService {
  import opened Bytes
  import opened OutboxModel
  import opened OutboxInvariant

  /** The rows of a set that a reconcile at this time judges in one way. */
  ghost function Judged(db: Db, keys: set<Key>, now: int, p: Policy, want: Verdict -> bool): set<Key> {
    set k | k in keys && Known(db, k) && want(VerdictOf(db, k, now, p))
  }

  predicate IsRecover(v: Verdict) { v.Recover? }

  predicate IsTimeout(v: Verdict) { v.Retry? || (v.GiveUp? && v.sent) }

  predicate IsExpire(v: Verdict) { v.Expire? }

  predicate IsGiveUp(v: Verdict) { v.GiveUp? }

  lemma JudgedSnoc(db: Db, keys: set<Key>, k: Key, now: int, p: Policy, want: Verdict -> bool)
    requires k !in keys && Known(db, k)
    ensures |Judged(db, keys + {k}, now, p, want)|
         == |Judged(db, keys, now, p, want)| + (if want(VerdictOf(db, k, now, p)) then 1 else 0)
  {
    hide VerdictOf;
    if want(VerdictOf(db, k, now, p)) {
      assert Judged(db, keys + {k}, now, p, want) == Judged(db, keys, now, p, want) + {k};
    } else {
      assert Judged(db, keys + {k}, now, p, want) == Judged(db, keys, now, p, want);
    }
  }

  datatype Report = Report(recovered: nat, timedOut: nat, expired: nat, failed: nat)

  ghost function ReportOf(db: Db, keys: set<Key>, now: int, p: Policy): Report {
    Report(|Judged(db, keys, now, p, IsRecover)|, |Judged(db, keys, now, p, IsTimeout)|,
           |Judged(db, keys, now, p, IsExpire)|, |Judged(db, keys, now, p, IsGiveUp)|)
  }

  function Counted(r: Report, v: Verdict): Report {
    Report(r.recovered + (if IsRecover(v) then 1 else 0), r.timedOut + (if IsTimeout(v) then 1 else 0),
           r.expired + (if IsExpire(v) then 1 else 0), r.failed + (if IsGiveUp(v) then 1 else 0))
  }

  lemma ReportSnoc(db: Db, keys: set<Key>, k: Key, now: int, p: Policy)
    requires k !in keys && Known(db, k)
    ensures ReportOf(db, keys + {k}, now, p) == Counted(ReportOf(db, keys, now, p), VerdictOf(db, k, now, p))
  {
    hide Judged, VerdictOf;
    JudgedSnoc(db, keys, k, now, p, IsRecover);
    JudgedSnoc(db, keys, k, now, p, IsTimeout);
    JudgedSnoc(db, keys, k, now, p, IsExpire);
    JudgedSnoc(db, keys, k, now, p, IsGiveUp);
  }

  /** Earlier in the dispatch order: due longer, then older. */
  predicate Before(a: Row, b: Row) {
    a.availableAt < b.availableAt || (a.availableAt == b.availableAt && a.createdAt <= b.createdAt)
  }

  /** A due row, and the asked-for one if a key is named. */
  predicate Wanted(db: Db, k: Key, now: int, filter: Option<Binding>, only: Option<Key>) {
    Claimable(db, k, now, filter) && (only.None? || only == Some(k))
  }

  class Tables {
    const policy: Policy
    var outbox: map<Key, Row>
    var commands: map<Key, Command>
    var markers: map<Owner, Marker>
    var attempts: map<AttemptId, Attempt>
    var instances: map<nat, Instance>
    var bound: Option<Bound>

    function Value(): Db
      reads this
    {
      Db(outbox, commands, markers, attempts, instances, bound)
    }

    ghost predicate Valid()
      reads this
    {
      Inv(Value(), policy)
    }

    constructor (policy: Policy)
      ensures Valid() && this.policy == policy && Value() == Db(map[], map[], map[], map[], map[], None)
    {
      this.policy := policy;
      outbox, commands, markers, attempts, instances, bound := map[], map[], map[], map[], map[], None;
      new;
      assert LiveKeys(Value()) == {};
    }

    /** Ends one live row and its command. */
    method EndRow(k: Key, state: OutState, code: ErrorCode)
      requires Known(Value(), k)
      modifies `outbox, `commands
      ensures Value() == Terminalize(old(Value()), k, state, code)
    {
      if Live(outbox[k].state) {
        outbox := outbox[k := outbox[k].(state := state, error := Some(code), lease := None, ackDeadline := None)];
      }
      if !CommandTerminal(commands[k].state) {
        commands := commands[k := commands[k].(state := if state == ACKED then COMMAND_ACKED else FAILED)];
      }
    }

    /** Recovers, retries, expires or gives up one row, as far as it is overdue. */
    method ReconcileRow(k: Key, now: int) returns (v: Verdict)
      requires Known(Value(), k) && Live(outbox[k].state)
      modifies `outbox, `commands
      ensures v == VerdictOf(old(Value()), k, now, policy)
      ensures outbox == old(outbox)[k := ReconciledRow(old(outbox)[k], v, now, policy)]
      ensures commands == old(commands)[k := ReconciledCommand(old(commands)[k], v)]
    {
      hide Backoff;
      var row, mode := outbox[k], commands[k].mode;
      var isOpen := row.target in instances && instances[row.target].contact == CONTACT_OPEN;
      if row.expiresAt <= now {
        EndRow(k, EXPIRED, TIME_EXPIRED);
        return Expire;
      }
      if row.state == DISPATCHING && row.lease.Some? && row.lease.value.expiresAt <= now {
        if mode == Immediate && !isOpen {
          EndRow(k, DELIVERY_FAILED, CONTACT_LOST);
          return GiveUp(CONTACT_LOST, false);
        }
        var next := if mode == NextContact && !isOpen then HELD_NO_CONTACT else OUTBOX_PENDING;
        outbox := outbox[k := row.(state := next, lease := None)];
        return Recover(next);
      }
      if row.state == SENT && row.ackDeadline.Some? && row.ackDeadline.value <= now {
        if row.attempts >= policy.maxAttempts {
          EndRow(k, DELIVERY_FAILED, MAX_ATTEMPTS);
          return GiveUp(MAX_ATTEMPTS, true);
        }
        if mode == Immediate && !isOpen {
          EndRow(k, DELIVERY_FAILED, CONTACT_LOST);
          return GiveUp(CONTACT_LOST, true);
        }
        var next := if mode == NextContact && !isOpen then HELD_NO_CONTACT else OUTBOX_PENDING;
        outbox := outbox[k := row.(state := next, availableAt := now + Backoff(policy, row.attempts), lease := None,
                                   ackDeadline := None)];
        return Retry(next);
      }
      v := Keep;
    }

    /** One row of the loop: it goes from its old value to its reconciled one. */
    method ReconcileOne(k: Key, now: int, ghost before: Db, ghost after: Db, ghost done: set<Key>) returns (v: Verdict)
      requires (forall j :: j in before.outbox ==> j in before.commands) && after == Reconcile(before, now, policy)
      requires Value() == before.(outbox := outbox, commands := commands)
      requires Mixed(before, after, done, outbox, commands) && k !in done && LiveAt(before, k)
      modifies `outbox, `commands
      ensures v == VerdictOf(before, k, now, policy)
      ensures Mixed(before, after, done + {k}, outbox, commands)
    {
      MixedAt(before, after, done, outbox, commands, Value(), k, now, policy);
      SameVerdict(before, k, now, policy);
      MixedStep(before, after, done, outbox, commands, k);
      hide Reconcile, ReconciledRow, ReconciledCommand, VerdictOf, Mixed;
      v := ReconcileRow(k, now);
    }

    /** Judges every live row once, with running counts. */
    method JudgeAll(now: int, ghost before: Db, ghost after: Db) returns (report: Report)
      requires (forall j :: j in before.outbox ==> j in before.commands) && after == Reconcile(before, now, policy)
      requires Value() == before && Mixed(before, after, {}, outbox, commands)
      modifies `outbox, `commands
      ensures Mixed(before, after, LiveKeys(before), outbox, commands)
      ensures report == ReportOf(before, LiveKeys(before), now, policy)
    {
      NothingJudged(before, now, policy);
      hide Reconcile, ReportOf, VerdictOf, Mixed;
      report := Report(0, 0, 0, 0);
      var todo := set k | k in outbox && Live(outbox[k].state);
      ghost var live := todo;
      ghost var done: set<Key> := {};
      assert live == LiveKeys(before);
      while todo != {}
        invariant todo == live - done && done <= live
        invariant Mixed(before, after, done, outbox, commands)
        invariant report == ReportOf(before, done, now, policy)
        decreases todo
      {
        var k :| k in todo;
        ReportSnoc(before, done, k, now, policy);
        var v := ReconcileOne(k, now, before, after, done);
        report := Counted(report, v);
        todo := todo - {k};
        done := done + {k};
      }
      assert done == live;
    }

    method ReconcileAll(now: int) returns (report: Report)
      requires Valid()
      modifies `outbox, `commands
      ensures Valid()
      ensures (forall k :: k in old(outbox) ==> k in old(commands)) && Value() == Reconcile(old(Value()), now, policy)
      ensures report == ReportOf(old(Value()), LiveKeys(old(Value())), now, policy)
    {
      ghost var before := Value();
      hide Inv, Reconcile, ReportOf, Mixed, LiveKeys;
      ReconcileKeepsInv(before, now, policy);
      SameKeys(before, now, policy);
      ghost var after := Reconcile(before, now, policy);
      NothingMixed(before, after);
      report := JudgeAll(now, before, after);
      AllMixed(before, LiveKeys(before), outbox, commands, now, policy);
    }

    /** Looks for a sent attempt of the request on exactly this link. */
    method FindSent(k: Key, c: Correlation) returns (found: bool)
      ensures found <==> SentOn(Value(), k, c)
    {
      hide Inv;
      var todo := attempts.Keys;
      while todo != {}
        invariant todo <= attempts.Keys
        invariant forall n :: CarriesLink(Value(), AttemptId(k, n), c) ==> AttemptId(k, n) in todo
        decreases todo
      {
        var id :| id in todo;
        if id.key == k && CarriesLink(Value(), id, c) {
          assert id == AttemptId(k, id.number);
          return true;
        }
        todo := todo - {id};
      }
      found := false;
    }

    /** A receipt ends or acknowledges a waiting row; an uncorrelated or late one changes nothing. */
    method Acknowledge(r: Receipt) returns (known: bool)
      modifies `outbox, `commands, `attempts
      ensures known == Known(old(Value()), r.key)
      ensures Value() == Or(IngestAck(old(Value()), r), old(Value()))
    {
      hide SentOn, AckAttempts, LiveKeys;
      if r.key !in outbox || r.key !in commands {
        return false;
      }
      known := true;
      var row := outbox[r.key];
      if !Live(row.state) {
        return;
      }
      if r.correlation.Some? {
        var found := FindSent(r.key, r.correlation.value);
        if row.target != r.correlation.value.source || row.state != SENT || !found {
          return;
        }
      }
      if !r.success {
        EndRow(r.key, DELIVERY_FAILED, r.code);
        return;
      }
      outbox := outbox[r.key := row.(state := ACKED, ackDeadline := None, lease := None, error := None)];
      commands := commands[r.key := commands[r.key].(state := COMMAND_ACKED)];
      attempts := AckAttempts(attempts, r.key);
    }

    /** The first due row in dispatch order, if any is due on an open link. */
    method OldestDue(now: int, filter: Option<Binding>, only: Option<Key>) returns (best: Option<Key>)
      ensures best.None? ==> forall j :: !Wanted(Value(), j, now, filter, only)
      ensures best.Some? ==> Wanted(Value(), best.value, now, filter, only)
      ensures best.Some? ==>
        forall j :: Wanted(Value(), j, now, filter, only) ==> Before(outbox[best.value], outbox[j])
    {
      hide MatchesFilter;
      best := None;
      var todo := outbox.Keys;
      while todo != {}
        invariant todo <= outbox.Keys
        invariant best.Some? ==> Wanted(Value(), best.value, now, filter, only)
        invariant forall j :: Wanted(Value(), j, now, filter, only) && j !in todo ==> best.Some? && Before(outbox[best.value], outbox[j])
        decreases todo
      {
        var k :| k in todo;
        var due := k in commands && outbox[k].state == OUTBOX_PENDING && outbox[k].availableAt <= now < outbox[k].expiresAt
          && outbox[k].target in instances && instances[outbox[k].target].active
          && instances[outbox[k].target].contact == CONTACT_OPEN
          && MatchesFilter(outbox[k], instances[outbox[k].target], filter)
          && (only.None? || only == Some(k));
        if due && (best.None? || Before(outbox[k], outbox[best.value])) {
          best := Some(k);
        }
        todo := todo - {k};
      }
    }

    /** Reconciles, then leases the first due row to this owner. */
    method ClaimNext(at: int, now: int, owner: string, filter: Option<Binding>, only: Option<Key>) returns (lease: Option<Claimed>)
      requires Valid()
      modifies `outbox, `commands
      ensures Valid()
      ensures forall k :: k in old(outbox) ==> k in old(commands)
      ensures var d := Reconcile(old(Value()), at, policy);
        && (lease.None? ==> Value() == d && forall k :: !Wanted(d, k, now, filter, only))
        && (lease.Some? ==>
              && Wanted(d, lease.value.key, now, filter, only) && lease.value == ClaimedLease(d, lease.value.key, owner)
              && Value() == Or(Claim(d, lease.value.key, owner, now, filter, policy), d)
              && forall k :: Wanted(d, k, now, filter, only) ==> Before(d.outbox[lease.value.key], d.outbox[k]))
    {
      hide Inv, Reconcile, ReportOf, Before, MatchesFilter;
      var report := ReconcileAll(at);
      ghost var d := Value();
      var best := OldestDue(now, filter, only);
      if best.None? {
        return None;
      }
      var k := best.value;
      ClaimKeepsInv(d, k, owner, now, filter, policy);
      var row := outbox[k];
      var inst := instances[row.target];
      outbox := outbox[k := row.(state := DISPATCHING, lease := Some(LeaseMark(owner, now + policy.leaseDuration)))];
      lease := Some(Claimed(k, row.target, owner, Binding(row.target, inst.generation, inst.session, inst.contact)));
    }

    /** Persists the next numbered attempt on the link the lease was claimed on. */
    method Prepare(lease: Claimed, now: int) returns (r: Result<nat, DbError>)
      modifies `outbox, `attempts
      ensures Value() == Or(PrepareAttempt(old(Value()), lease, now, policy), old(Value()))
      ensures r.Ok? <==> PrepareAttempt(old(Value()), lease, now, policy).Ok?
      ensures r.Err? ==> r.error == PrepareAttempt(old(Value()), lease, now, policy).error
      ensures r.Ok? ==> lease.key in outbox && r.value == outbox[lease.key].attempts
    {
      if !HoldsLease(Value(), lease.key, lease.owner, now) || outbox[lease.key].target !in instances {
        return Err(LeaseLost);
      }
      var row, b := outbox[lease.key], lease.binding;
      if row.attempts >= policy.maxAttempts {
        return Err(AttemptLimit);
      }
      if row.target != b.instance {
        return Err(LeaseLost);
      }
      var inst := instances[row.target];
      if !inst.active || inst.generation != b.generation || inst.session != b.session || inst.contact != CONTACT_OPEN {
        return Err(LeaseLost);
      }
      var number := row.attempts + 1;
      attempts := attempts[AttemptId(lease.key, number) := Attempt(row.target, b.generation, b.session, PERSISTED_NOT_SENT)];
      outbox := outbox[lease.key := row.(attempts := number)];
      r := Ok(number);
    }

    /** Arms the row and its attempt just before the bytes go out. */
    method Arm(k: Key, owner: string, number: nat, now: int) returns (r: Result<(), DbError>)
      modifies `outbox, `attempts
      ensures Value() == Or(MarkSent(old(Value()), k, owner, number, now, policy), old(Value()))
      ensures r.Ok? <==> MarkSent(old(Value()), k, owner, number, now, policy).Ok?
    {
      var id := AttemptId(k, number);
      if !HoldsLease(Value(), k, owner, now) || !HasResult(Value(), id, PERSISTED_NOT_SENT) {
        return Err(LeaseLost);
      }
      outbox := outbox[k := outbox[k].(state := SENT, ackDeadline := Some(now + policy.ackTimeout), lease := None, error := None)];
      attempts := attempts[id := attempts[id].(result := WAS_SENT)];
      r := Ok(());
    }

    /** A persisted attempt was not sent: the row goes back, or expires. */
    method NotSent(k: Key, owner: string, number: nat, reason: string, now: int) returns (r: Result<(), DbError>)
      modifies `outbox, `attempts, `commands
      ensures Value() == Or(MarkNotSent(old(Value()), k, owner, number, reason, now), old(Value()))
      ensures r.Ok? <==> MarkNotSent(old(Value()), k, owner, number, reason, now).Ok?
    {
      var id := AttemptId(k, number);
      if !HoldsLease(Value(), k, owner, now) || !HasResult(Value(), id, PERSISTED_NOT_SENT) {
        return Err(LeaseLost);
      }
      attempts := attempts[id := attempts[id].(result := NOT_SENT(reason))];
      var expired := outbox[k].expiresAt <= now;
      outbox := outbox[k := outbox[k].(state := if expired then EXPIRED else OUTBOX_PENDING, availableAt := now, lease := None,
                                       ackDeadline := None, error := Some(OtherCode(reason)))];
      if expired && commands[k].state == ADMITTED {
        commands := commands[k := commands[k].(state := FAILED)];
      }
      r := Ok(());
    }

    /** The send call failed after arming: requeue unless a receipt was faster. */
    method Rollback(k: Key, number: nat, reason: string, now: int) returns (done: bool)
      modifies `outbox, `attempts, `commands
      ensures Value() == RollbackSent(old(Value()), k, number, reason, now, policy)
      ensures done ==> AttemptId(k, number) in attempts && attempts[AttemptId(k, number)].result == OutboxModel.NOT_SENT(reason)
    {
      hide Backoff;
      var id := AttemptId(k, number);
      if k !in outbox || k !in commands || outbox[k].state != SENT || !HasResult(Value(), id, WAS_SENT) {
        return false;
      }
      attempts := attempts[id := attempts[id].(result := OutboxModel.NOT_SENT(reason))];
      done := true;
      var row, mode := outbox[k], commands[k].mode;
      var isOpen := row.target in instances && instances[row.target].contact == CONTACT_OPEN;
      if row.expiresAt <= now {
        EndRow(k, EXPIRED, TIME_EXPIRED);
        return;
      }
      if mode == Immediate && !isOpen {
        EndRow(k, DELIVERY_FAILED, CONTACT_LOST);
        return;
      }
      var next := if mode == NextContact && !isOpen then HELD_NO_CONTACT else OUTBOX_PENDING;
      outbox := outbox[k := row.(state := next, availableAt := now + Backoff(policy, row.attempts), lease := None,
                                 ackDeadline := None, error := Some(OtherCode(reason)))];
    }

    /** Contact opens, closes or blacks out: held work resumes, waiting work pauses, immediate work fails. */
    method ChangeContact(instance: nat, contact: Contact, now: int) returns (r: Result<(), DbError>)
      modifies `outbox, `commands, `instances
      ensures Value() == Or(SetContact(old(Value()), instance, contact, now, policy), old(Value()))
      ensures r.Ok? <==> SetContact(old(Value()), instance, contact, now, policy).Ok?
    {
      hide ContactRow, FailWith;
      if instance !in instances || !instances[instance].active {
        return Err(NotBound);
      }
      var previous := instances[instance].contact;
      var rows := ContactRows(Value(), instance, contact, now, policy);
      instances := instances[instance := instances[instance].(contact := contact)];
      if previous != contact {
        outbox := rows;
        if contact != CONTACT_OPEN {
          commands := FailCommands(outbox, commands, instance, CONTACT_LOST);
        }
      }
      r := Ok(());
    }

    /** Binds a link; replaces the session of the same spacecraft, or retires the previous spacecraft. */
    method Migrate(b: Binding, now: int) returns (r: Result<Option<nat>, DbError>)
      modifies `outbox, `commands, `attempts, `instances, `bound
      ensures Value() == Or(Bind(old(Value()), b, now), old(Value()))
      ensures r.Ok? <==> Bind(old(Value()), b, now).Ok?
      ensures r.Ok? ==> (r.value.Some? <==> old(bound).Some? && old(bound).value.instance != b.instance)
      ensures r.Ok? && r.value.Some? ==> r.value.value == old(bound).value.instance
    {
      hide Rebound, RetiredRow, Revoked, FailWith;
      if b.instance in instances {
        if !instances[b.instance].active {
          return Err(TargetRetired);
        }
        var known := instances[b.instance];
        if bound.Some? && (b.generation < known.generation || (b.generation == known.generation && b.session != known.session)) {
          return Err(GenerationRegression);
        }
      }
      var next := Bound(b.instance, b.generation, b.session);
      if bound == Some(next) && (if b.instance in instances then instances[b.instance].contact else NO_CONTACT) != b.contact {
        return Err(ContactViaBind);
      }
      var retired: Option<nat> := None;
      if bound.Some? && bound != Some(next) {
        var old_instance := bound.value.instance;
        if old_instance == b.instance {
          outbox := map k | k in outbox :: Rebound(outbox[k], b.instance, now);
          attempts := RevokeAttempts(attempts, b.instance, true);
        } else {
          retired := Some(old_instance);
          outbox := map k | k in outbox :: RetiredRow(outbox[k], old_instance);
          attempts := RevokeAttempts(attempts, old_instance, false);
          commands := FailCommands(outbox, commands, old_instance, TARGET_INSTANCE_RETIRED);
          if old_instance in instances {
            instances := instances[old_instance := instances[old_instance].(active := false, contact := NO_CONTACT)];
          }
        }
      }
      instances := instances[b.instance := Instance(b.generation, b.session, true, b.contact)];
      bound := Some(next);
      r := Ok(retired);
    }

    /** The command this principal's Idempotency-Key already stands for. */
    method FindOwned(owner: Owner) returns (r: Option<Key>)
      requires OwnersInv(Value())
      ensures r == OwnedBy(Value(), owner)
    {
      hide OwnersInv, OwnedBy;
      var todo := commands.Keys;
      while todo != {}
        invariant todo <= commands.Keys
        invariant forall k :: Owns(Value(), owner, k) ==> k in todo
        decreases todo
      {
        var k :| k in todo;
        if commands[k].owner == owner {
          OwnerIsUnique(Value(), owner, k);
          return Some(k);
        }
        todo := todo - {k};
      }
      NoneOwned(Value(), owner);
      r := None;
    }

    method CountLive() returns (n: nat)
      ensures n == |LiveKeys(Value())|
    {
      var live := set k | k in outbox && Live(outbox[k].state);
      assert live == LiveKeys(Value());
      n := |live|;
    }

    /** Replays, refuses or inserts a command together with its outbox row. */
    method AdmitCommand(a: Admission, contact: bool, key: Key, now: int) returns (r: Result<Admitted, DbError>)
      requires OwnersInv(Value())
      modifies `outbox, `commands, `markers
      ensures var spec := Admit(old(Value()), a, contact, key, now, policy);
        && (spec.Ok? ==> Value() == spec.value.0 && r == Ok(spec.value.1))
        && (spec.Err? ==> Value() == old(Value()) && r == Err(spec.error))
    {
      hide OwnersInv, OwnedBy, LiveKeys, NewRow;
      var existing := FindOwned(a.owner);
      if existing.Some? {
        OwnedExists(Value(), a.owner);
        return if commands[existing.value].digest != a.digest then Err(IdempotencyConflict(existing.value))
               else Ok(Replayed(existing.value));
      }
      if a.owner in markers && now < markers[a.owner].retainedUntil {
        var m := markers[a.owner];
        return if m.digest != a.digest then Err(IdempotencyConflict(m.original)) else Err(KeyRetired(m.original));
      }
      if a.target in instances && !instances[a.target].active {
        return Err(TargetRetired);
      }
      if a.mode == Immediate && !contact {
        return Err(NoContactError);
      }
      var live := CountLive();
      if live >= policy.capacity {
        return Err(CapacityExhausted);
      }
      if key in commands || key in outbox {
        return Err(IntegrityError);
      }
      markers := map o | o in markers && o != a.owner :: markers[o];
      commands := commands[key := Command(a.target, a.owner, a.digest, a.mode, ADMITTED)];
      outbox := outbox[key := NewRow(a, contact, now)];
      r := Ok(Fresh(key));
    }

    /** Prunes a finished command with its row and attempts, and keeps its name and digest for a while. */
    method Retire(key: Key, now: int, retention: nat) returns (r: Result<int, DbError>)
      modifies `outbox, `commands, `attempts, `markers
      ensures Value() == Or(RetireCommand(old(Value()), key, now, retention), old(Value()))
      ensures r.Ok? <==> RetireCommand(old(Value()), key, now, retention).Ok?
      ensures r.Ok? ==> r.value == now + retention
      ensures r.Err? ==> r.error == RetireCommand(old(Value()), key, now, retention).error
    {
      if key !in commands || key !in outbox {
        return Err(UnknownKey);
      }
      if !CommandTerminal(commands[key].state) || Live(outbox[key].state) {
        return Err(NotTerminal);
      }
      var c := commands[key];
      if c.owner in markers {
        return Err(IntegrityError);
      }
      markers := markers[c.owner := Marker(c.digest, key, now + retention)];
      commands := map k | k in commands && k != key :: commands[k];
      outbox := map k | k in outbox && k != key :: outbox[k];
      attempts := map id | id in attempts && id.key != key :: attempts[id];
      r := Ok(now + retention);
    }
  }

  lemma NoneOwned(db: Db, owner: Owner)
    requires forall k :: !Owns(db, owner, k)
    ensures OwnedBy(db, owner) == None
  {
  }

  lemma OwnedExists(db: Db, owner: Owner)
    requires OwnedBy(db, owner).Some?
    ensures Owns(db, owner, OwnedBy(db, owner).value)
  {
  }

  /** The rows done so far hold their new values, the others their old ones. */
  ghost predicate Mixed(before: Db, after: Db, done: set<Key>, outbox: map<Key, Row>, commands: map<Key, Command>) {
    && outbox.Keys == before.outbox.Keys == after.outbox.Keys && commands.Keys == before.commands.Keys == after.commands.Keys
    && (forall k :: k in outbox ==> outbox[k] == if k in done then after.outbox[k] else before.outbox[k])
    && (forall k :: k in commands ==> commands[k] == if k in done then after.commands[k] else before.commands[k])
  }

  lemma SameKeys(db: Db, now: int, p: Policy)
    requires Inv(db, p)
    ensures forall j :: j in db.outbox ==> j in db.commands
    ensures var d := Reconcile(db, now, p);
      && d.outbox.Keys == db.outbox.Keys == d.commands.Keys == db.commands.Keys
      && d.markers == db.markers && d.attempts == db.attempts && d.instances == db.instances && d.bound == db.bound
  {
    assert RowsInv(db);
    hide NumberedInv, OwnersInv, LinkInv, LiveKeys, RowInv, ReconciledRow, ReconciledCommand;
  }

  lemma NothingMixed(before: Db, after: Db)
    requires before.outbox.Keys == after.outbox.Keys && before.commands.Keys == after.commands.Keys
    ensures Mixed(before, after, {}, before.outbox, before.commands)
  {
  }

  lemma MixedAt(before: Db, after: Db, done: set<Key>, outbox: map<Key, Row>, commands: map<Key, Command>, current: Db, k: Key,
                now: int, p: Policy)
    requires Mixed(before, after, done, outbox, commands) && k !in done && Known(before, k)
    requires current == before.(outbox := outbox, commands := commands)
    ensures Known(current, k) && outbox[k] == before.outbox[k] && commands[k] == before.commands[k]
    ensures VerdictOf(current, k, now, p) == VerdictOf(before, k, now, p)
  {
    hide Judge;
  }

  lemma MixedStep(before: Db, after: Db, done: set<Key>, outbox: map<Key, Row>, commands: map<Key, Command>, k: Key)
    requires Mixed(before, after, done, outbox, commands) && k in outbox && k in commands
    ensures k in after.outbox && k in after.commands
    ensures Mixed(before, after, done + {k}, outbox[k := after.outbox[k]], commands[k := after.commands[k]])
  {
  }

  lemma AllMixed(before: Db, done: set<Key>, outbox: map<Key, Row>, commands: map<Key, Command>, now: int, p: Policy)
    requires (forall j :: j in before.outbox ==> j in before.commands) && Inv(before, p)
    requires Mixed(before, Reconcile(before, now, p), done, outbox, commands) && done == LiveKeys(before)
    ensures outbox == Reconcile(before, now, p).outbox && commands == Reconcile(before, now, p).commands
  {
    var after := Reconcile(before, now, p);
    assert before.outbox.Keys == before.commands.Keys by { assert RowsInv(before); }
    hide Reconcile, Inv;
    forall k | k in outbox && k !in done
      ensures k in after.outbox && k in after.commands && after.outbox[k] == before.outbox[k] && after.commands[k] == before.commands[k]
    {
      assert !LiveAt(before, k);
      KeptRow(before, k, now, p);
    }
    MixedIsAfter(before, after, done, outbox, commands);
  }

  lemma MixedIsAfter(before: Db, after: Db, done: set<Key>, outbox: map<Key, Row>, commands: map<Key, Command>)
    requires Mixed(before, after, done, outbox, commands) && outbox.Keys == commands.Keys
    requires forall k :: k in outbox && k !in done ==> after.outbox[k] == before.outbox[k] && after.commands[k] == before.commands[k]
    ensures outbox == after.outbox && commands == after.commands
  {
  }

  lemma KeptRow(db: Db, k: Key, now: int, p: Policy)
    requires (forall j :: j in db.outbox ==> j in db.commands) && k in db.outbox && !Live(db.outbox[k].state)
    ensures Reconcile(db, now, p).outbox[k] == db.outbox[k] && Reconcile(db, now, p).commands[k] == db.commands[k]
  {
    SameVerdict(db, k, now, p);
    hide Reconcile;
  }

  lemma NothingJudged(db: Db, now: int, p: Policy)
    ensures ReportOf(db, {}, now, p) == Report(0, 0, 0, 0)
  {
    assert Judged(db, {}, now, p, IsRecover) == {} && Judged(db, {}, now, p, IsTimeout) == {};
    assert Judged(db, {}, now, p, IsExpire) == {} && Judged(db, {}, now, p, IsGiveUp) == {};
  }

  /** One row of a reconcile. */
  lemma SameVerdict(db: Db, k: Key, now: int, p: Policy)
    requires (forall j :: j in db.outbox ==> j in db.commands) && k in db.outbox
    ensures Reconcile(db, now, p).outbox[k] == ReconciledRow(db.outbox[k], VerdictOf(db, k, now, p), now, p)
    ensures Reconcile(db, now, p).commands[k] == ReconciledCommand(db.commands[k], VerdictOf(db, k, now, p))
  {
  }
}
