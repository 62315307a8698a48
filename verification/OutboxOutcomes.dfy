/**
 When each transaction of the command tables takes effect, and what it then leaves, told from
 the rows, the attempts and the bound link alone. Everything else stays as it was.
 */
module OutboxOutcomes {
  import opened Bytes
  import opened OutboxModel
  import opened OutboxInvariant
  import opened OutboxSafety

  /** The row's spacecraft is the bound one, and it is in contact. */
  predicate Reachable(db: Db, row: Row) {
    db.bound.Some? && db.bound.value.instance == row.target && InContact(db, row.target)
  }

  /** A binding that names the bound link; its contact state is not looked at. */
  predicate NamesBoundLink(db: Db, b: Binding) {
    db.bound == Some(Bound(b.instance, b.generation, b.session))
  }

  /** Only this row differs. */
  ghost predicate OnlyRow(db: Db, d: Db, k: Key) {
    && d.outbox.Keys == db.outbox.Keys && (forall j :: j in db.outbox && j != k ==> d.outbox[j] == db.outbox[j])
    && d.markers == db.markers && d.instances == db.instances && d.bound == db.bound
  }

  lemma RowsAreKnown(db: Db, k: Key, p: Policy)
    requires Inv(db, p) && k in db.outbox
    ensures Known(db, k)
  {
    assert RowsInv(db);
    hide NumberedInv, OwnersInv, LinkInv, LiveKeys;
  }

  lemma RowIsSound(db: Db, k: Key, p: Policy)
    requires Inv(db, p) && Known(db, k)
    ensures RowInv(db.outbox[k], db.commands[k])
  {
    assert RowsInv(db);
    hide NumberedInv, OwnersInv, LinkInv, LiveKeys;
  }

  lemma BoundLinkIs(db: Db, i: nat, p: Policy)
    requires Inv(db, p) && db.bound.Some? && db.bound.value.instance == i
    ensures i in db.instances && db.instances[i].active
    ensures db.bound == Some(Bound(i, db.instances[i].generation, db.instances[i].session))
  {
    assert InstancesInv(db);
    assert IsBound(db, i, db.instances[i].generation, db.instances[i].session);
    hide RowsInv, NumberedInv, OwnersInv, RowsOnLink, AttemptsOnLink, LiveKeys;
  }

  lemma ActiveIsBound(db: Db, i: nat, p: Policy)
    requires Inv(db, p) && i in db.instances && db.instances[i].active
    ensures db.bound == Some(Bound(i, db.instances[i].generation, db.instances[i].session))
  {
    assert InstancesInv(db);
    assert IsBound(db, i, db.instances[i].generation, db.instances[i].session);
    hide RowsInv, NumberedInv, OwnersInv, RowsOnLink, AttemptsOnLink, LiveKeys;
  }

  // ---------------------------------------------------------------- claim

  /**
   A claim succeeds exactly for a pending row that is due, has not expired, and is for the bound
   spacecraft in contact, on the bound link if one is asked for. The row is then leased to the owner.
   */
  lemma ClaimSucceedsIff(db: Db, k: Key, owner: string, now: int, filter: Option<Binding>, p: Policy)
    requires Inv(db, p) && k in db.outbox
    ensures Known(db, k)
    ensures var row, r := db.outbox[k], Claim(db, k, owner, now, filter, p);
      && (r.Ok? <==>
            row.state == OUTBOX_PENDING && row.availableAt <= now < row.expiresAt && Reachable(db, row)
            && (filter.Some? ==> NamesBoundLink(db, filter.value)))
      && (r.Ok? ==>
            && OnlyRow(db, r.value, k) && r.value.commands == db.commands && r.value.attempts == db.attempts
            && r.value.outbox[k] == row.(state := DISPATCHING, lease := Some(LeaseMark(owner, now + p.leaseDuration))))
  {
    RowsAreKnown(db, k, p);
    var i := db.outbox[k].target;
    if i in db.instances && db.instances[i].active { ActiveIsBound(db, i, p); }
    if db.bound.Some? && db.bound.value.instance == i { BoundLinkIs(db, i, p); }
    hide Inv;
  }

  // ---------------------------------------------------------------- attempts

  /** The row is being dispatched by this owner, whose lease has time left. */
  predicate LeasedTo(row: Row, owner: string, now: int) {
    && row.state == DISPATCHING && row.lease.Some? && row.lease.value.owner == owner && now < row.lease.value.expiresAt
  }

  /** On a row under way the bound link is that of the active spacecraft it is for. */
  lemma UnderWay(db: Db, k: Key, b: Binding, p: Policy)
    requires Inv(db, p) && k in db.outbox && db.outbox[k].state == DISPATCHING
    ensures Known(db, k)
    ensures var i := db.outbox[k].target;
      && i in db.instances && db.instances[i].active && db.bound == Some(Bound(i, db.instances[i].generation, db.instances[i].session))
  {
    RowsAreKnown(db, k, p);
    BoundIsActive(db, k, p);
    ActiveIsBound(db, db.outbox[k].target, p);
    hide Inv;
  }

  /**
   An attempt is persisted exactly by the holder of a running lease that was claimed on the link
   still bound, in contact, with attempts left. With none left the limit is reported.
   */
  lemma AttemptPersistsIff(db: Db, lease: Claimed, now: int, p: Policy)
    requires Inv(db, p) && lease.key in db.outbox
    ensures var row, r := db.outbox[lease.key], PrepareAttempt(db, lease, now, p);
      && (r.Ok? <==>
            LeasedTo(row, lease.owner, now) && row.attempts < p.maxAttempts && Reachable(db, row) && NamesBoundLink(db, lease.binding))
      && (r == Err(AttemptLimit) <==> LeasedTo(row, lease.owner, now) && row.attempts >= p.maxAttempts)
  {
    RowsAreKnown(db, lease.key, p);
    if db.outbox[lease.key].state == DISPATCHING { UnderWay(db, lease.key, lease.binding, p); }
    hide Inv;
  }

  /** The persisted attempt is the next one, on the bound link. */
  lemma PersistedAttempt(db: Db, lease: Claimed, now: int, p: Policy)
    requires Inv(db, p) && PrepareAttempt(db, lease, now, p).Ok?
    ensures lease.key in db.outbox && db.bound.Some?
    ensures var row, d, id := db.outbox[lease.key], PrepareAttempt(db, lease, now, p).value,
                              AttemptId(lease.key, db.outbox[lease.key].attempts + 1);
      && d == db.(outbox := db.outbox[lease.key := row.(attempts := row.attempts + 1)], attempts := d.attempts)
      && d.attempts == db.attempts[id := Attempt(db.bound.value.instance, db.bound.value.generation, db.bound.value.session, PERSISTED_NOT_SENT)]
  {
    UnderWay(db, lease.key, lease.binding, p);
    hide Inv;
  }

  /** Arming takes a running lease and a persisted attempt; the row then waits for its receipt until the deadline. */
  lemma ArmsIff(db: Db, k: Key, owner: string, number: nat, now: int, p: Policy)
    requires Inv(db, p) && k in db.outbox
    ensures var row, id, r := db.outbox[k], AttemptId(k, number), MarkSent(db, k, owner, number, now, p);
      && (r.Ok? <==> LeasedTo(row, owner, now) && id in db.attempts && db.attempts[id].result == PERSISTED_NOT_SENT)
      && (r.Ok? ==>
            && OnlyRow(db, r.value, k) && r.value.commands == db.commands
            && r.value.outbox[k] == row.(state := SENT, ackDeadline := Some(now + p.ackTimeout), lease := None, error := None)
            && r.value.attempts == db.attempts[id := db.attempts[id].(result := WAS_SENT)])
  {
    hide Inv;
    RowsAreKnown(db, k, p);
  }

  /** Giving a persisted attempt back takes the same; an expired row ends with its command, any other is due at once. */
  lemma GivenBackIff(db: Db, k: Key, owner: string, number: nat, reason: string, now: int, p: Policy)
    requires Inv(db, p) && k in db.outbox
    ensures Known(db, k)
    ensures var row, id, r := db.outbox[k], AttemptId(k, number), MarkNotSent(db, k, owner, number, reason, now);
      && (r.Ok? <==> LeasedTo(row, owner, now) && id in db.attempts && db.attempts[id].result == PERSISTED_NOT_SENT)
      && (r.Ok? ==>
            && OnlyRow(db, r.value, k)
            && r.value.outbox[k] == row.(state := if row.expiresAt <= now then EXPIRED else OUTBOX_PENDING, availableAt := now,
                                         lease := None, ackDeadline := None, error := Some(OtherCode(reason)))
            && r.value.commands == (if row.expiresAt <= now then db.commands[k := db.commands[k].(state := FAILED)] else db.commands)
            && r.value.attempts == db.attempts[id := db.attempts[id].(result := NOT_SENT(reason))])
  {
    RowsAreKnown(db, k, p);
    assert RowInv(db.outbox[k], db.commands[k]) by { assert RowsInv(db); }
    hide Inv;
  }

  /** A stray attempt is marked exactly when it was persisted and not sent; no row changes. */
  lemma StrayIsMarkedIff(db: Db, id: AttemptId, reason: string)
    ensures var d := MarkAttemptNotSent(db, id, reason);
      && (d != db <==> id in db.attempts && db.attempts[id].result == PERSISTED_NOT_SENT)
      && (d != db ==> d == db.(attempts := db.attempts[id := db.attempts[id].(result := NOT_SENT(reason))]))
  {
    if id in db.attempts && db.attempts[id].result == PERSISTED_NOT_SENT {
      assert MarkAttemptNotSent(db, id, reason).attempts[id].result != db.attempts[id].result;
    }
  }

  // ---------------------------------------------------------------- send errors

  /** What is left of a sent row whose send call failed. */
  predicate RolledBack(contact: bool, row: Row, c: Command, row': Row, c': Command, reason: string, now: int, p: Policy) {
    && row'.target == row.target && row'.attempts == row.attempts && row'.expiresAt == row.expiresAt && row'.createdAt == row.createdAt
    && row'.lease.None? && row'.ackDeadline.None?
    && if row.expiresAt <= now then
         row'.state == EXPIRED && row'.error == Some(TIME_EXPIRED) && row'.availableAt == row.availableAt && c' == c.(state := FAILED)
       else if c.mode == Immediate && !contact then
         row'.state == DELIVERY_FAILED && row'.error == Some(CONTACT_LOST) && row'.availableAt == row.availableAt && c' == c.(state := FAILED)
       else
         && row'.state == (if contact then OUTBOX_PENDING else HELD_NO_CONTACT)
         && row'.availableAt == now + Backoff(p, row.attempts) && row'.error == Some(OtherCode(reason)) && c' == c
  }

  lemma RolledBackIs(row: Row, c: Command, contact: bool, reason: string, now: int, p: Policy)
    requires c.state == ADMITTED
    ensures var row' := RolledBackRow(row, c.mode, contact, reason, now, p);
      RolledBack(contact, row, c, row', if Live(row'.state) then c else c.(state := FAILED), reason, now, p)
  {
    hide Backoff;
  }

  /** A rollback takes effect exactly when the row still waits and the attempt is armed. */
  lemma RollbackTakesEffectIff(db: Db, k: Key, number: nat, reason: string, now: int, p: Policy)
    requires Inv(db, p) && k in db.outbox
    ensures RollbackSent(db, k, number, reason, now, p) != db <==>
      db.outbox[k].state == SENT && AttemptId(k, number) in db.attempts && db.attempts[AttemptId(k, number)].result == WAS_SENT
  {
    RowsAreKnown(db, k, p);
    hide Inv, Backoff;
    if db.outbox[k].state == SENT && HasResult(db, AttemptId(k, number), WAS_SENT) {
      RollbackTakesEffect(db, k, number, reason, now, p);
    }
    hide RolledBackRow;
  }

  lemma RollbackIs(db: Db, k: Key, number: nat, reason: string, now: int, p: Policy)
    requires Known(db, k) && db.outbox[k].state == SENT && HasResult(db, AttemptId(k, number), WAS_SENT) && db.commands[k].state == ADMITTED
    ensures var row' := RolledBackRow(db.outbox[k], db.commands[k].mode, InContact(db, db.outbox[k].target), reason, now, p);
      var c' := if Live(row'.state) then db.commands[k] else db.commands[k].(state := FAILED);
      RollbackSent(db, k, number, reason, now, p)
      == db.(outbox := db.outbox[k := row'], commands := db.commands[k := c'],
             attempts := db.attempts[AttemptId(k, number) := db.attempts[AttemptId(k, number)].(result := NOT_SENT(reason))])
  {
    hide RolledBackRow;
    assert db.commands == db.commands[k := db.commands[k]];
  }

  /** The row is then requeued after its delay, held, or ended, and the attempt counts as not sent. */
  lemma RollbackOutcome(db: Db, k: Key, number: nat, reason: string, now: int, p: Policy)
    requires Inv(db, p) && k in db.outbox && RollbackSent(db, k, number, reason, now, p) != db
    ensures Known(db, k) && AttemptId(k, number) in db.attempts
    ensures var d, id := RollbackSent(db, k, number, reason, now, p), AttemptId(k, number);
      && OnlyRow(db, d, k) && Known(d, k) && d.commands == db.commands[k := d.commands[k]]
      && RolledBack(InContact(db, db.outbox[k].target), db.outbox[k], db.commands[k], d.outbox[k], d.commands[k], reason, now, p)
      && d.attempts == db.attempts[id := db.attempts[id].(result := NOT_SENT(reason))]
  {
    hide Inv, RolledBackRow, RolledBack, RollbackSent, InContact;
    RowsAreKnown(db, k, p);
    RowIsSound(db, k, p);
    RollbackTakesEffectIff(db, k, number, reason, now, p);
    RollbackIs(db, k, number, reason, now, p);
    RolledBackIs(db.outbox[k], db.commands[k], InContact(db, db.outbox[k].target), reason, now, p);
  }

  // ---------------------------------------------------------------- receipts

  /** The row is live, and waits for a receipt from the link the receipt names, if it names one. */
  ghost predicate Counts(db: Db, r: Receipt)
    requires r.key in db.outbox
  {
    Live(db.outbox[r.key].state) && (r.correlation.Some? ==> Correlated(db, r.key, r.correlation.value))
  }

  /** A receipt for an unknown request is refused, and one that does not count changes nothing. */
  lemma ReceiptIgnored(db: Db, r: Receipt, p: Policy)
    requires Inv(db, p)
    ensures IngestAck(db, r).Err? <==> r.key !in db.outbox
    ensures r.key in db.outbox && !Counts(db, r) ==> IngestAck(db, r) == Ok(db)
  {
    if r.key in db.outbox { RowsAreKnown(db, r.key, p); }
    hide Inv, Correlated, AckAttempts;
  }

  /** A success that counts acknowledges the row, its command and every armed attempt of the request. */
  lemma SuccessAcknowledges(db: Db, r: Receipt, p: Policy)
    requires Inv(db, p) && r.key in db.outbox && Counts(db, r) && r.success
    ensures Known(db, r.key) && IngestAck(db, r).Ok?
    ensures var d := IngestAck(db, r).value;
      && d == db.(outbox := d.outbox, commands := d.commands, attempts := d.attempts)
      && d.outbox == db.outbox[r.key := db.outbox[r.key].(state := ACKED, ackDeadline := None, lease := None, error := None)]
      && d.commands == db.commands[r.key := db.commands[r.key].(state := COMMAND_ACKED)]
      && d.attempts.Keys == db.attempts.Keys
      && forall id :: id in db.attempts ==>
           d.attempts[id] == if id.key == r.key && db.attempts[id].result == WAS_SENT then db.attempts[id].(result := WAS_ACKED)
                             else db.attempts[id]
  {
    RowsAreKnown(db, r.key, p);
    hide Inv, Correlated;
  }

  /** Any other receipt that counts ends row and command with its code, and leaves the attempts. */
  lemma FailureEnds(db: Db, r: Receipt, p: Policy)
    requires Inv(db, p) && r.key in db.outbox && Counts(db, r) && !r.success
    ensures Known(db, r.key)
    ensures IngestAck(db, r) ==
      Ok(db.(outbox := db.outbox[r.key := db.outbox[r.key].(state := DELIVERY_FAILED, error := Some(r.code), lease := None, ackDeadline := None)],
             commands := db.commands[r.key := db.commands[r.key].(state := FAILED)]))
  {
    RowsAreKnown(db, r.key, p);
    assert RowInv(db.outbox[r.key], db.commands[r.key]) by { assert RowsInv(db); }
    hide Inv, Correlated, AckAttempts;
  }

  // ---------------------------------------------------------------- admission and pruning

  /** Nothing stands in the way of a new command: neither its name, its target, its contact, the capacity, nor its key. */
  ghost predicate Admissible(db: Db, a: Admission, contact: bool, key: Key, now: int, p: Policy) {
    && (forall k :: k in db.commands ==> db.commands[k].owner != a.owner)
    && (a.owner in db.markers ==> db.markers[a.owner].retainedUntil <= now)
    && (a.target in db.instances ==> db.instances[a.target].active)
    && (a.mode == NextContact || contact)
    && |LiveKeys(db)| < p.capacity
    && key !in db.commands
  }

  /**
   A new command comes in exactly when nothing stands in its way. It is admitted, pending at once
   or held until the next contact, and clears the outdated marker of its name.
   */
  lemma AdmittedIff(db: Db, a: Admission, contact: bool, key: Key, now: int, p: Policy)
    requires Inv(db, p)
    ensures var r := Admit(db, a, contact, key, now, p);
      && (r.Ok? && r.value.1.Fresh? <==> Admissible(db, a, contact, key, now, p))
      && (r.Ok? && r.value.1.Fresh? ==>
            var d := r.value.0;
            && r.value.1 == Fresh(key) && key !in db.outbox
            && d.commands == db.commands[key := Command(a.target, a.owner, a.digest, a.mode, ADMITTED)]
            && d.outbox == db.outbox[key := Row(a.target, if contact || a.mode == Immediate then OUTBOX_PENDING else HELD_NO_CONTACT, 0, now,
                                                None, None, a.expiresAt, now, None)]
            && a.owner !in d.markers && (forall o :: o != a.owner ==> (o in d.markers <==> o in db.markers))
            && (forall o :: o in d.markers ==> d.markers[o] == db.markers[o])
            && d.attempts == db.attempts && d.instances == db.instances && d.bound == db.bound)
  {
    assert RowsInv(db);
    assert forall k :: k in db.outbox <==> k in db.commands;
    assert (exists k :: Owns(db, a.owner, k)) <==> OwnedBy(db, a.owner).Some?;
    if forall k :: k in db.commands ==> db.commands[k].owner != a.owner {
      assert forall k :: !Owns(db, a.owner, k);
    } else {
      var k :| k in db.commands && db.commands[k].owner == a.owner;
      assert Owns(db, a.owner, k);
    }
    hide Inv, RowsInv, OwnedBy, LiveKeys;
  }

  /** Pruning takes a finished command whose name carries no marker; it goes with its row and attempts, and the marker stays for the retention. */
  lemma PrunedIff(db: Db, key: Key, now: int, retention: nat, p: Policy)
    requires Inv(db, p)
    ensures var r := RetireCommand(db, key, now, retention);
      && (r.Ok? <==> Known(db, key) && !Live(db.outbox[key].state) && db.commands[key].owner !in db.markers)
      && (r.Ok? ==>
            var d, c := r.value, db.commands[key];
            && key !in d.commands && key !in d.outbox && (forall id :: id in d.attempts ==> id.key != key)
            && (forall k :: k != key ==> SameRow(db, d, k)) && (forall id: AttemptId :: id.key != key ==> SameAttempt(db, d, id))
            && d.markers == db.markers[c.owner := Marker(c.digest, key, now + retention)]
            && d.instances == db.instances && d.bound == db.bound)
  {
    assert RowsInv(db);
    if Known(db, key) {
      assert RowInv(db.outbox[key], db.commands[key]);
    }
    hide Inv, RowsInv;
  }

  /** However many commands are admitted, at no time of any run are more of them unfinished than the capacity. */
  lemma CapacityHolds(events: seq<Event>, p: Policy, keys: set<Key>)
    requires var d := Run(EMPTY, events, p);
      forall k :: k in keys ==> k in d.outbox && d.outbox[k].state !in {ACKED, EXPIRED, DELIVERY_FAILED, CANCELED}
    ensures |keys| <= p.capacity
  {
    EveryRunIsSafe(events, p);
    var d := Run(EMPTY, events, p);
    hide Run;
    assert |LiveKeys(d)| <= p.capacity by {
      hide RowsInv, NumberedInv, OwnersInv, LinkInv, LiveKeys;
    }
    SubsetSize(keys, LiveKeys(d));
  }

  // ---------------------------------------------------------------- contact

  /** A contact report that brings nothing new, and every expired or finished row in any case, leaves the row as it is. */
  lemma ContactLeaves(db: Db, k: Key, instance: nat, contact: Contact, now: int, p: Policy)
    requires Inv(db, p) && k in db.outbox && SetContact(db, instance, contact, now, p).Ok?
    requires (instance in db.instances && db.instances[instance].contact == contact) || !Live(db.outbox[k].state)
             || db.outbox[k].expiresAt <= now
    ensures var d := SetContact(db, instance, contact, now, p).value;
      Known(d, k) && Known(db, k) && d.outbox[k] == db.outbox[k] && d.commands[k] == db.commands[k]
  {
    RowsAreKnown(db, k, p);
    assert RowInv(db.outbox[k], db.commands[k]) by { assert RowsInv(db); }
    hide Inv;
  }

  /** Held work is due the moment contact opens; sent work then gets a full acknowledgement time; the rest keeps its times. */
  lemma ContactTimes(db: Db, k: Key, instance: nat, now: int, p: Policy)
    requires Inv(db, p) && OpenWork(db, k, instance, now) && SetContact(db, instance, CONTACT_OPEN, now, p).Ok?
    requires instance in db.instances && db.instances[instance].contact != CONTACT_OPEN
    ensures var d, row := SetContact(db, instance, CONTACT_OPEN, now, p).value, db.outbox[k];
      && Known(d, k) && d.commands[k] == db.commands[k]
      && d.outbox[k] ==
           if db.commands[k].mode == NextContact && row.state == HELD_NO_CONTACT then row.(state := OUTBOX_PENDING, availableAt := now)
           else if db.commands[k].mode == NextContact && row.state == SENT && row.ackDeadline.None? then row.(ackDeadline := Some(now + p.ackTimeout))
           else row
  {
    assert RowInv(db.outbox[k], db.commands[k]) by { assert RowsInv(db); }
    hide Inv;
  }

  /** A report is taken exactly for a known spacecraft that is not retired. */
  lemma ContactTakenIff(db: Db, instance: nat, contact: Contact, now: int, p: Policy)
    requires Inv(db, p)
    ensures SetContact(db, instance, contact, now, p).Ok? <==> db.bound.Some? && db.bound.value.instance == instance
  {
    if instance in db.instances && db.instances[instance].active { ActiveIsBound(db, instance, p); }
    if db.bound.Some? && db.bound.value.instance == instance { BoundLinkIs(db, instance, p); }
    hide Inv;
  }

  // ---------------------------------------------------------------- binding

  /** The spacecraft is known and was retired. */
  predicate Retired(db: Db, i: nat) {
    i in db.instances && !db.instances[i].active
  }

  /** The link goes back, or takes another session in the same generation. */
  predicate GoesBack(db: Db, b: Binding) {
    && db.bound.Some? && db.bound.value.instance == b.instance
    && (b.generation < db.bound.value.generation || (b.generation == db.bound.value.generation && b.session != db.bound.value.session))
  }

  /**
   A binding is taken exactly when its spacecraft is not retired, its link does not go back, and it
   does not change the contact of the link already bound. It is then the bound link of an active
   spacecraft with the contact it names.
   */
  lemma BoundIff(db: Db, b: Binding, now: int, p: Policy)
    requires Inv(db, p)
    ensures var r := Bind(db, b, now);
      && (r.Ok? <==>
            && !Retired(db, b.instance) && !GoesBack(db, b)
            && (NamesBoundLink(db, b) ==> InstanceContact(db, b.instance) == b.contact))
      && (r.Ok? ==>
            && r.value.bound == Some(Bound(b.instance, b.generation, b.session))
            && b.instance in r.value.instances && r.value.instances[b.instance] == Instance(b.generation, b.session, true, b.contact)
            && r.value.markers == db.markers)
  {
    if b.instance in db.instances && db.instances[b.instance].active { ActiveIsBound(db, b.instance, p); }
    if db.bound.Some? { BoundLinkIs(db, db.bound.value.instance, p); }
    hide Inv, RebindSame, Rebound, Revoked, RetiredRow, FailWith;
  }

  function InstanceContact(db: Db, i: nat): Contact {
    if i in db.instances then db.instances[i].contact else NO_CONTACT
  }

  /** What a change of spacecraft leaves of a row and its command: live work of the old one fails. */
  predicate LeftBehind(old_instance: nat, row: Row, c: Command, row': Row, c': Command) {
    if row.target == old_instance && Live(row.state) then
      row' == row.(state := DELIVERY_FAILED, error := Some(TARGET_INSTANCE_RETIRED), lease := None, ackDeadline := None)
      && c' == c.(state := FAILED)
    else row' == row && c' == c
  }

  /** An attempt of a link that is given up counts as not sent, unless it is on the air and its spacecraft is retired anyway. */
  predicate Withdrawn(a: Attempt, a': Attempt, i: nat, alsoSent: bool) {
    a' == if a.target == i && (a.result == PERSISTED_NOT_SENT || (alsoSent && a.result == WAS_SENT)) then a.(result := NOT_SENT("REBIND")) else a
  }

  lemma LeftBehindRow(db: Db, b: Binding, now: int, k: Key, p: Policy)
    requires Known(db, k) && RowInv(db.outbox[k], db.commands[k])
    requires Bind(db, b, now).Ok? && db.bound.Some? && db.bound.value.instance != b.instance
    ensures var d := Bind(db, b, now).value;
      Known(d, k) && LeftBehind(db.bound.value.instance, db.outbox[k], db.commands[k], d.outbox[k], d.commands[k])
  {
    hide Revoked;
  }

  /** Another spacecraft takes over: the old one is retired and out of contact, its live work fails, its persisted attempts are withdrawn. */
  lemma TakeOverOutcome(db: Db, b: Binding, now: int, p: Policy)
    requires Inv(db, p) && Bind(db, b, now).Ok? && db.bound.Some? && db.bound.value.instance != b.instance
    ensures var d, i := Bind(db, b, now).value, db.bound.value.instance;
      && i in d.instances && i in db.instances && d.instances[i] == db.instances[i].(active := false, contact := NO_CONTACT)
      && (forall k :: k in db.outbox ==> Known(db, k) && Known(d, k) && LeftBehind(i, db.outbox[k], db.commands[k], d.outbox[k], d.commands[k]))
      && d.attempts.Keys == db.attempts.Keys && (forall id :: id in db.attempts ==> Withdrawn(db.attempts[id], d.attempts[id], i, false))
  {
    var d, i := Bind(db, b, now).value, db.bound.value.instance;
    BoundLinkIs(db, i, p);
    hide Rebound, RetiredRow, FailWith;
    forall k | k in db.outbox
      ensures Known(db, k) && Known(d, k) && LeftBehind(i, db.outbox[k], db.commands[k], d.outbox[k], d.commands[k])
    {
      RowsAreKnown(db, k, p);
      assert RowInv(db.outbox[k], db.commands[k]) by { assert RowsInv(db); }
      hide Inv, Bind, LeftBehind;
      LeftBehindRow(db, b, now, k, p);
    }
    hide Inv, LeftBehind;
  }

  /** A new link of the same spacecraft withdraws all its open attempts. */
  lemma NewLinkWithdraws(db: Db, b: Binding, now: int, p: Policy)
    requires Inv(db, p) && Bind(db, b, now).Ok? && db.bound.Some? && db.bound.value.instance == b.instance && !NamesBoundLink(db, b)
    ensures var d := Bind(db, b, now).value;
      && d.attempts.Keys == db.attempts.Keys
      && (forall id :: id in db.attempts ==> Withdrawn(db.attempts[id], d.attempts[id], b.instance, true))
      && (forall k :: k in db.outbox && k in d.outbox && db.outbox[k].target == b.instance && Live(db.outbox[k].state) ==>
            d.outbox[k] == db.outbox[k].(state := OUTBOX_PENDING, availableAt := now, lease := None, ackDeadline := None, error := Some(LINK_REBOUND)))
  {
    hide Inv;
  }

  /** Binding the same link again, or the first one, touches no work. */
  lemma PlainBindTouchesNothing(db: Db, b: Binding, now: int)
    requires Bind(db, b, now).Ok? && (db.bound.None? || NamesBoundLink(db, b))
    ensures var d := Bind(db, b, now).value;
      d.outbox == db.outbox && d.commands == db.commands && d.attempts == db.attempts
  {
  }

  // ---------------------------------------------------------------- a command that is answered

  function AnswerOf(st: Story, success: bool, code: ErrorCode): Receipt {
    Receipt(st.key, success, code, Some(Correlation(st.link.instance, st.link.generation, st.link.session)))
  }

  lemma AnswerCounts(st: Story, success: bool, code: ErrorCode)
    requires Tellable(st)
    ensures var sent := With(st, FirstSent(st), FirstArmed(st));
      && Run(EMPTY, Begin(st) + SendOnce(st, 1, st.begun), st.p) == sent && Inv(sent, st.p)
      && st.key in sent.outbox && Counts(sent, AnswerOf(st, success, code))
  {
    var sent, r := With(st, FirstSent(st), FirstArmed(st)), AnswerOf(st, success, code);
    FirstRuns(st);
    assert Known(sent, st.key) && sent.outbox[st.key].state == SENT && sent.outbox[st.key].target == st.link.instance;
    assert CarriesLink(sent, AttemptId(st.key, 1), r.correlation.value);
    assert Correlated(sent, st.key, r.correlation.value);
    hide Run, Inv, Begin, SendOnce, With, FirstSent, Correlated;
    EmptyIsFine(st.p);
    RunKeepsInv(EMPTY, Begin(st) + SendOnce(st, 1, st.begun), st.p);
  }

  /** From the empty tables: a command that is sent and answered on its link is acknowledged, or failed with the receipt's code. */
  lemma AnswerDecides(st: Story, success: bool, code: ErrorCode)
    requires Tellable(st)
    ensures var db := Run(EMPTY, Begin(st) + SendOnce(st, 1, st.begun) + [EvAck(AnswerOf(st, success, code))], st.p);
      && Known(db, st.key)
      && (if success then db.outbox[st.key].state == ACKED && db.commands[st.key].state == COMMAND_ACKED
          else db.outbox[st.key].state == DELIVERY_FAILED && db.outbox[st.key].error == Some(code) && db.commands[st.key].state == FAILED)
  {
    var r := AnswerOf(st, success, code);
    var sent := With(st, FirstSent(st), FirstArmed(st));
    AnswerCounts(st, success, code);
    hide Run, Inv, Begin, SendOnce, With, FirstArmed, FirstSent, IngestAck, Counts;
    if success { SuccessAcknowledges(sent, r, st.p); } else { FailureEnds(sent, r, st.p); }
    RunConcat(EMPTY, Begin(st) + SendOnce(st, 1, st.begun), [EvAck(r)], st.p);
    RunOne(sent, EvAck(r), st.p);
  }

  // ---------------------------------------------------------------- work that comes round again

  lemma RunPair(db: Db, a: Event, b: Event, p: Policy)
    ensures Run(db, [a, b], p) == Step(Step(db, a, p), b, p)
  {
    hide Step;
    assert [a, b] == [a] + [b];
    RunConcat(db, [a], [b], p);
    RunOne(db, a, p);
    RunOne(Step(db, a, p), b, p);
  }

  /** Leased to the owner at that time. */
  predicate TakenBy(d: Db, k: Key, owner: string, at: int, p: Policy) {
    k in d.outbox && d.outbox[k].state == DISPATCHING && d.outbox[k].lease == Some(LeaseMark(owner, at + p.leaseDuration))
  }

  lemma DueRowIsTaken(d: Db, k: Key, owner: string, at: int, p: Policy)
    requires Inv(d, p) && k in d.outbox && d.outbox[k].state == OUTBOX_PENDING
    requires d.outbox[k].availableAt <= at < d.outbox[k].expiresAt && Reachable(d, d.outbox[k])
    ensures TakenBy(Step(d, EvClaim(k, owner, at, None), p), k, owner, at, p)
  {
    ClaimSucceedsIff(d, k, owner, at, None, p);
    hide Inv, Claim;
  }

  /** Work held for the next contact can be claimed from the moment it opens. */
  lemma HeldWorkIsClaimed(db: Db, k: Key, now: int, owner: string, at: int, p: Policy)
    requires Inv(db, p) && Known(db, k) && db.outbox[k].state == HELD_NO_CONTACT && db.commands[k].mode == NextContact
    requires db.bound.Some? && db.bound.value.instance == db.outbox[k].target && !InContact(db, db.outbox[k].target)
    requires now <= at < db.outbox[k].expiresAt
    ensures TakenBy(Run(db, [EvContact(db.outbox[k].target, CONTACT_OPEN, now), EvClaim(k, owner, at, None)], p), k, owner, at, p)
  {
    var i := db.outbox[k].target;
    ContactTakenIff(db, i, CONTACT_OPEN, now, p);
    ContactIsStored(db, i, CONTACT_OPEN, now, p);
    ContactTimes(db, k, i, now, p);
    StepKeepsInv(db, EvContact(i, CONTACT_OPEN, now), p);
    var d := Step(db, EvContact(i, CONTACT_OPEN, now), p);
    assert d == SetContact(db, i, CONTACT_OPEN, now, p).value;
    hide Inv, Step, SetContact;
    DueRowIsTaken(d, k, owner, at, p);
    RunPair(db, EvContact(i, CONTACT_OPEN, now), EvClaim(k, owner, at, None), p);
  }

  lemma GivesBack(db: Db, k: Key, owner: string, number: nat, reason: string, now: int, p: Policy)
    requires MarkNotSent(db, k, owner, number, reason, now).Ok?
    ensures Step(db, EvMarkNotSent(k, owner, number, reason, now), p) == MarkNotSent(db, k, owner, number, reason, now).value
  {
    hide MarkNotSent;
  }

  lemma RollsBack(db: Db, k: Key, number: nat, reason: string, now: int, p: Policy)
    ensures Step(db, EvRollback(k, number, reason, now), p) == RollbackSent(db, k, number, reason, now, p)
  {
    hide RollbackSent;
  }

  /** An attempt given back in contact lets anyone claim its row at once. */
  lemma GivenBackIsClaimed(db: Db, k: Key, owner: string, number: nat, reason: string, now: int, other: string, at: int, p: Policy)
    requires Inv(db, p) && k in db.outbox && LeasedTo(db.outbox[k], owner, now) && Reachable(db, db.outbox[k])
    requires AttemptId(k, number) in db.attempts && db.attempts[AttemptId(k, number)].result == PERSISTED_NOT_SENT
    requires now <= at < db.outbox[k].expiresAt
    ensures TakenBy(Run(db, [EvMarkNotSent(k, owner, number, reason, now), EvClaim(k, other, at, None)], p), k, other, at, p)
  {
    var ev := EvMarkNotSent(k, owner, number, reason, now);
    hide Inv, Step, MarkNotSent;
    GivenBackIff(db, k, owner, number, reason, now, p);
    StepKeepsInv(db, ev, p);
    var d := Step(db, ev, p);
    GivesBack(db, k, owner, number, reason, now, p);
    DueRowIsTaken(d, k, other, at, p);
    RunPair(db, ev, EvClaim(k, other, at, None), p);
  }

  /** A send that failed in contact is claimed again after its delay. */
  lemma RolledBackIsClaimed(db: Db, k: Key, number: nat, reason: string, now: int, owner: string, at: int, p: Policy)
    requires Inv(db, p) && k in db.outbox && db.outbox[k].state == SENT && Reachable(db, db.outbox[k])
    requires AttemptId(k, number) in db.attempts && db.attempts[AttemptId(k, number)].result == WAS_SENT
    requires now < db.outbox[k].expiresAt && now + Backoff(p, db.outbox[k].attempts) <= at < db.outbox[k].expiresAt
    ensures TakenBy(Run(db, [EvRollback(k, number, reason, now), EvClaim(k, owner, at, None)], p), k, owner, at, p)
  {
    var ev := EvRollback(k, number, reason, now);
    hide Inv, Step, RollbackSent, Backoff;
    RollbackTakesEffectIff(db, k, number, reason, now, p);
    RollbackOutcome(db, k, number, reason, now, p);
    StepKeepsInv(db, ev, p);
    var d := Step(db, ev, p);
    RollsBack(db, k, number, reason, now, p);
    DueRowIsTaken(d, k, owner, at, p);
    RunPair(db, ev, EvClaim(k, owner, at, None), p);
  }

  /** An attempt marked as not sent is never armed. */
  lemma StrayIsNotArmed(db: Db, id: AttemptId, reason: string, owner: string, now: int, p: Policy)
    requires Inv(db, p) && id.key in db.outbox && id in db.attempts && db.attempts[id].result == PERSISTED_NOT_SENT
    ensures Run(db, [EvAttemptNotSent(id, reason), EvMarkSent(id.key, owner, id.number, now)], p)
         == db.(attempts := db.attempts[id := db.attempts[id].(result := NOT_SENT(reason))])
  {
    hide Inv, Step, MarkAttemptNotSent;
    StrayIsMarkedIff(db, id, reason);
    StepKeepsInv(db, EvAttemptNotSent(id, reason), p);
    var d := Step(db, EvAttemptNotSent(id, reason), p);
    MarksStray(db, id, reason, p);
    RunPair(db, EvAttemptNotSent(id, reason), EvMarkSent(id.key, owner, id.number, now), p);
    assert id == AttemptId(id.key, id.number) && d.attempts[id].result == NOT_SENT(reason);
    RefusedArming(d, id.key, owner, id.number, now, p);
  }

  lemma MarksStray(db: Db, id: AttemptId, reason: string, p: Policy)
    ensures Step(db, EvAttemptNotSent(id, reason), p) == MarkAttemptNotSent(db, id, reason)
  {
    hide MarkAttemptNotSent;
  }

  lemma RefusedArming(db: Db, k: Key, owner: string, number: nat, now: int, p: Policy)
    requires Inv(db, p) && k in db.outbox
    requires AttemptId(k, number) in db.attempts ==> db.attempts[AttemptId(k, number)].result != PERSISTED_NOT_SENT
    ensures Step(db, EvMarkSent(k, owner, number, now), p) == db
  {
    ArmsIff(db, k, owner, number, now, p);
    hide Inv, MarkSent;
  }

  lemma OwnersDiffer(db: Db, key: Key, p: Policy)
    requires Inv(db, p) && key in db.commands
    ensures forall k :: k in db.commands && k != key ==> db.commands[k].owner != db.commands[key].owner
  {
    assert OwnersInv(db);
    hide RowsInv, NumberedInv, LinkInv, LiveKeys;
  }

  lemma OnlyFreshChanges(db: Db, a: Admission, contact: bool, key: Key, now: int, p: Policy)
    requires Admit(db, a, contact, key, now, p).Ok? && !Admit(db, a, contact, key, now, p).value.1.Fresh?
    ensures Admit(db, a, contact, key, now, p).value.0 == db
  {
    hide OwnedBy, LiveKeys;
  }

  /** After its command is pruned a name can be used for a new one exactly when the retention is over. */
  lemma PrunedNameIsFreeIff(db: Db, key: Key, now: int, retention: nat, a: Admission, again: Key, later: int, p: Policy)
    requires Inv(db, p) && RetireCommand(db, key, now, retention).Ok?
    requires key in db.commands && a.owner == db.commands[key].owner && a.mode == NextContact
    requires (a.target in db.instances ==> db.instances[a.target].active) && |LiveKeys(db)| < p.capacity && again !in db.commands
    ensures again in Run(db, [EvRetire(key, now, retention), EvAdmit(a, false, again, later)], p).commands <==> now + retention <= later
  {
    PrunedIff(db, key, now, retention, p);
    OwnersDiffer(db, key, p);
    StepKeepsInv(db, EvRetire(key, now, retention), p);
    RunPair(db, EvRetire(key, now, retention), EvAdmit(a, false, again, later), p);
    var d := Step(db, EvRetire(key, now, retention), p);
    assert d == RetireCommand(db, key, now, retention).value;
    hide RetireCommand, Inv;
    forall k | k in d.commands ensures d.commands[k].owner != a.owner && k != again {
      assert SameRow(db, d, k);
    }
    forall k | k in d.outbox ensures k in db.outbox && d.outbox[k] == db.outbox[k] {
      assert SameRow(db, d, k);
    }
    NoRevival(db, d);
    AdmittedIff(d, a, false, again, later, p);
    var r := Admit(d, a, false, again, later, p);
    if r.Ok? && !r.value.1.Fresh? {
      OnlyFreshChanges(d, a, false, again, later, p);
    }
    hide Admit, LiveKeys;
  }
}
