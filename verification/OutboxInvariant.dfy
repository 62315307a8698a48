/** What every transaction of the command tables keeps. */
module OutboxInvariant {
  import opened Bytes
  import opened OutboxModel

  /** A row and its command agree on the target and on being finished. */
  predicate RowInv(row: Row, c: Command) {
    && row.target == c.target
    && (row.lease.Some? <==> row.state == DISPATCHING)
    && (row.ackDeadline.Some? ==> row.state == SENT)
    && (c.state == ADMITTED <==> Live(row.state))
    && (c.state == COMMAND_ACKED <==> row.state == ACKED)
  }

  ghost predicate RowsInv(db: Db) {
    db.outbox.Keys == db.commands.Keys && forall k :: k in db.outbox ==> k in db.commands && RowInv(db.outbox[k], db.commands[k])
  }

  /** Attempts of a row are numbered 1 to its attempt count, within the limit. */
  ghost predicate NumberedInv(db: Db, p: Policy) {
    && (forall id :: id in db.attempts ==>
          id.key in db.outbox && 1 <= id.number <= db.outbox[id.key].attempts && db.attempts[id].target == db.outbox[id.key].target)
    && (forall k, n :: k in db.outbox && 1 <= n <= db.outbox[k].attempts ==> AttemptId(k, n) in db.attempts)
    && (forall k :: k in db.outbox ==> db.outbox[k].attempts <= p.maxAttempts)
  }

  /** No marker is kept for a client's key; the station's own requests may come back after pruning. */
  predicate Unmarked(db: Db, owner: Owner) {
    owner.principal == DOWNLINK_PRINCIPAL || owner !in db.markers
  }

  /** A client's Idempotency-Key stands for one command, or for one pruned command, never both. */
  ghost predicate OwnersInv(db: Db) {
    && (forall k, l :: k in db.commands && l in db.commands && db.commands[k].owner == db.commands[l].owner ==> k == l)
    && (forall k :: k in db.commands ==> Unmarked(db, db.commands[k].owner))
  }

  predicate IsBound(db: Db, i: nat, generation: nat, session: nat) {
    db.bound == Some(Bound(i, generation, session))
  }

  /** Exactly the bound instance is active, on the bound generation and session. */
  ghost predicate InstancesInv(db: Db) {
    && (forall i :: i in db.instances && db.instances[i].active ==>
          IsBound(db, i, db.instances[i].generation, db.instances[i].session))
    && (db.bound.Some? ==> db.bound.value.instance in db.instances && db.instances[db.bound.value.instance].active)
  }

  predicate Armed(r: SendResult) {
    r == PERSISTED_NOT_SENT || r == WAS_SENT
  }

  predicate OnBoundLink(bound: Option<Bound>, a: Attempt) {
    bound.Some? && a.target == bound.value.instance ==>
      a.generation == bound.value.generation && a.session == bound.value.session
  }

  /** Armed attempts of the bound instance carry the bound link. */
  ghost predicate AttemptsOnLink(db: Db) {
    forall id :: id in db.attempts ==>
      db.attempts[id].target in db.instances && (Armed(db.attempts[id].result) ==> OnBoundLink(db.bound, db.attempts[id]))
  }

  ghost predicate HasSentAttempt(db: Db, k: Key) {
    exists n :: HasResult(db, AttemptId(k, n), WAS_SENT)
  }

  /** Only the bound instance has work under way; a retired one has none; a sent row has a sent attempt. */
  predicate RowOnLink(db: Db, row: Row) {
    && (row.state == DISPATCHING || row.state == SENT ==> db.bound.Some? && row.target == db.bound.value.instance)
    && (Live(row.state) && row.target in db.instances ==> db.instances[row.target].active)
  }

  ghost predicate RowsOnLink(db: Db) {
    forall k :: k in db.outbox ==> RowOnLink(db, db.outbox[k]) && (db.outbox[k].state == SENT ==> HasSentAttempt(db, k))
  }

  ghost predicate LinkInv(db: Db) {
    InstancesInv(db) && AttemptsOnLink(db) && RowsOnLink(db)
  }

  ghost predicate Inv(db: Db, p: Policy) {
    RowsInv(db) && NumberedInv(db, p) && OwnersInv(db) && LinkInv(db) && |LiveKeys(db)| <= p.capacity
  }

  // ---------------------------------------------------------------- capacity

  /** A step that revives no finished row keeps the live count within capacity. */
  lemma NoRevival(db: Db, d: Db)
    requires forall k :: LiveAt(d, k) ==> LiveAt(db, k)
    ensures |LiveKeys(d)| <= |LiveKeys(db)|
  {
    SubsetSize(LiveKeys(d), LiveKeys(db));
  }

  // ---------------------------------------------------------------- untouched requests

  predicate SameAttempt(db: Db, d: Db, id: AttemptId) {
    (id in db.attempts <==> id in d.attempts) && (id in db.attempts ==> db.attempts[id] == d.attempts[id])
  }

  predicate SameRow(db: Db, d: Db, k: Key) {
    && (k in db.outbox <==> k in d.outbox) && (k in db.outbox ==> db.outbox[k] == d.outbox[k])
    && (k in db.commands <==> k in d.commands) && (k in db.commands ==> db.commands[k] == d.commands[k])
  }

  /** Every other request keeps its row, command and attempts. */
  ghost predicate OthersSame(db: Db, d: Db, k: Key) {
    && (forall j :: j != k ==> SameRow(db, d, j))
    && (forall id: AttemptId :: id.key != k ==> SameAttempt(db, d, id))
  }

  lemma SameAttempts(db: Db, d: Db, k: Key)
    requires forall n :: SameAttempt(db, d, AttemptId(k, n))
    ensures HasSentAttempt(db, k) <==> HasSentAttempt(d, k)
  {
    if HasSentAttempt(db, k) {
      var n :| HasResult(db, AttemptId(k, n), WAS_SENT);
      assert SameAttempt(db, d, AttemptId(k, n));
      assert HasResult(d, AttemptId(k, n), WAS_SENT);
    }
    if HasSentAttempt(d, k) {
      var n :| HasResult(d, AttemptId(k, n), WAS_SENT);
      assert SameAttempt(db, d, AttemptId(k, n));
      assert HasResult(db, AttemptId(k, n), WAS_SENT);
    }
  }

  // ---------------------------------------------------------------- steps on one request

  /** The request's own records are consistent. */
  ghost predicate LocalInv(d: Db, k: Key, p: Policy) {
    (k in d.outbox || k in d.commands) ==>
      && Known(d, k)
      && RowInv(d.outbox[k], d.commands[k])
      && RowOnLink(d, d.outbox[k])
      && (d.outbox[k].state == SENT ==> HasSentAttempt(d, k))
      && d.outbox[k].attempts <= p.maxAttempts
      && (forall n :: 1 <= n <= d.outbox[k].attempts ==> AttemptId(k, n) in d.attempts)
  }

  ghost predicate LocalAttempt(d: Db, id: AttemptId) {
    id in d.attempts ==>
      && id.key in d.outbox && 1 <= id.number <= d.outbox[id.key].attempts
      && d.attempts[id].target == d.outbox[id.key].target
      && d.attempts[id].target in d.instances
      && (Armed(d.attempts[id].result) ==> OnBoundLink(d.bound, d.attempts[id]))
  }

  /** The four list invariants are these statements about each request and each attempt. */
  lemma InvIsLocal(d: Db, p: Policy)
    ensures RowsInv(d) && NumberedInv(d, p) && AttemptsOnLink(d) && RowsOnLink(d)
       <==> (forall k :: LocalInv(d, k, p)) && (forall id :: LocalAttempt(d, id))
  {
    hide RowInv, RowOnLink, HasSentAttempt, Armed, OnBoundLink;
    if (forall k :: LocalInv(d, k, p)) && (forall id :: LocalAttempt(d, id)) {
      forall k | k in d.outbox ensures k in d.commands && RowInv(d.outbox[k], d.commands[k]) && RowOnLink(d, d.outbox[k])
        && (d.outbox[k].state == SENT ==> HasSentAttempt(d, k)) && d.outbox[k].attempts <= p.maxAttempts
      {
        assert LocalInv(d, k, p);
      }
      forall k | k in d.commands ensures k in d.outbox {
        assert LocalInv(d, k, p);
      }
      forall k, n | k in d.outbox && 1 <= n <= d.outbox[k].attempts ensures AttemptId(k, n) in d.attempts {
        assert LocalInv(d, k, p);
      }
      forall id | id in d.attempts ensures id.key in d.outbox && 1 <= id.number <= d.outbox[id.key].attempts
        && d.attempts[id].target == d.outbox[id.key].target && d.attempts[id].target in d.instances
        && (Armed(d.attempts[id].result) ==> OnBoundLink(d.bound, d.attempts[id]))
      {
        assert LocalAttempt(d, id);
      }
    }
  }

  /** Records of an untouched request stay consistent while the binding stays. */
  lemma LocalCarries(db: Db, d: Db, k: Key, p: Policy)
    requires d.instances == db.instances && d.bound == db.bound
    requires LocalInv(db, k, p) && SameRow(db, d, k) && forall n :: SameAttempt(db, d, AttemptId(k, n))
    ensures LocalInv(d, k, p)
  {
    SameAttempts(db, d, k);
    hide RowInv, HasSentAttempt;
    if k in d.outbox {
      forall n | 1 <= n <= d.outbox[k].attempts ensures AttemptId(k, n) in d.attempts {
        assert SameAttempt(db, d, AttemptId(k, n));
      }
    }
  }

  /** What a transaction on one request has to show. */
  ghost predicate LocalStep(db: Db, d: Db, k: Key, p: Policy) {
    && d.instances == db.instances && d.bound == db.bound
    && OthersSame(db, d, k)
    && LocalInv(d, k, p) && (forall n :: LocalAttempt(d, AttemptId(k, n)))
  }

  lemma LocalStepKeepsLists(db: Db, d: Db, k: Key, p: Policy)
    requires RowsInv(db) && NumberedInv(db, p) && AttemptsOnLink(db) && RowsOnLink(db)
    requires LocalStep(db, d, k, p)
    ensures RowsInv(d) && NumberedInv(d, p) && AttemptsOnLink(d) && RowsOnLink(d)
  {
    InvIsLocal(db, p);
    hide RowsInv, NumberedInv, AttemptsOnLink, RowsOnLink, LocalInv;
    forall j ensures LocalInv(d, j, p) {
      if j != k {
        LocalCarries(db, d, j, p);
      }
    }
    forall id ensures LocalAttempt(d, id) {
      if id.key == k {
        assert id == AttemptId(k, id.number);
      } else {
        assert LocalAttempt(db, id) && SameAttempt(db, d, id) && SameRow(db, d, id.key);
      }
    }
    InvIsLocal(d, p);
  }

  /** The owner, digest and mode of a command never change, and no marker is touched. */
  ghost predicate OwnersSame(db: Db, d: Db) {
    && d.markers == db.markers && d.commands.Keys == db.commands.Keys
    && forall k :: k in db.commands ==> d.commands[k].owner == db.commands[k].owner
  }

  lemma OwnersCarry(db: Db, d: Db)
    requires OwnersInv(db) && OwnersSame(db, d)
    ensures OwnersInv(d)
  {
  }

  lemma InstancesCarry(db: Db, d: Db)
    requires InstancesInv(db) && d.instances == db.instances && d.bound == db.bound
    ensures InstancesInv(d)
  {
  }

  lemma NothingElseRevives(db: Db, d: Db, k: Key)
    requires OthersSame(db, d, k) && (LiveAt(d, k) ==> LiveAt(db, k))
    ensures |LiveKeys(d)| <= |LiveKeys(db)|
  {
    forall j | LiveAt(d, j) ensures LiveAt(db, j) {
      assert j != k ==> SameRow(db, d, j);
    }
    NoRevival(db, d);
  }

  lemma LocalStepKeepsInv(db: Db, d: Db, k: Key, p: Policy)
    requires Inv(db, p) && LocalStep(db, d, k, p) && OwnersSame(db, d)
    requires LiveAt(d, k) ==> LiveAt(db, k)
    ensures Inv(d, p)
  {
    hide RowsInv, NumberedInv, AttemptsOnLink, RowsOnLink, OwnersInv, InstancesInv, OthersSame, LocalInv, LocalAttempt,
      OwnersSame, LiveKeys, LiveAt;
    LocalStepKeepsLists(db, d, k, p);
    OwnersCarry(db, d);
    InstancesCarry(db, d);
    NothingElseRevives(db, d, k);
  }

  lemma LocalFromInv(db: Db, k: Key, p: Policy)
    requires Inv(db, p)
    ensures LocalInv(db, k, p) && forall n :: LocalAttempt(db, AttemptId(k, n))
  {
    InvIsLocal(db, p);
    hide RowsInv, NumberedInv, AttemptsOnLink, RowsOnLink;
  }

  /** Another request's records are not touched by an update of this request's records. */
  lemma OnlyThisRequest(db: Db, d: Db, k: Key)
    requires d.outbox.Keys == db.outbox.Keys && d.commands.Keys == db.commands.Keys
    requires forall j :: j in db.outbox && j != k ==> d.outbox[j] == db.outbox[j]
    requires forall j :: j in db.commands && j != k ==> d.commands[j] == db.commands[j]
    requires forall id :: id in d.attempts && id.key != k ==> id in db.attempts && d.attempts[id] == db.attempts[id]
    requires forall id :: id in db.attempts && id.key != k ==> id in d.attempts
    ensures OthersSame(db, d, k)
  {
  }

  /** A claimed row's target is the bound instance. */
  lemma ClaimsBoundLink(db: Db, k: Key, now: int, filter: Option<Binding>, p: Policy)
    requires Inv(db, p) && Claimable(db, k, now, filter)
    ensures db.bound.Some? && db.bound.value.instance == db.outbox[k].target
  {
    assert InstancesInv(db);
    hide RowsInv, NumberedInv, OwnersInv, RowsOnLink, AttemptsOnLink, LiveKeys;
    assert IsBound(db, db.outbox[k].target, db.instances[db.outbox[k].target].generation, db.instances[db.outbox[k].target].session);
  }

  lemma ClaimKeepsInv(db: Db, k: Key, owner: string, now: int, filter: Option<Binding>, p: Policy)
    requires Inv(db, p) && Claim(db, k, owner, now, filter, p).Ok?
    ensures Inv(Claim(db, k, owner, now, filter, p).value, p)
  {
    hide Inv, RowsInv, NumberedInv, OwnersInv, LinkInv, LiveKeys, OnBoundLink, Pow2, Backoff;
    var d := Claim(db, k, owner, now, filter, p).value;
    LocalFromInv(db, k, p);
    ClaimsBoundLink(db, k, now, filter, p);
    OnlyThisRequest(db, d, k);
    hide OthersSame;
    forall n ensures LocalAttempt(d, AttemptId(k, n)) {
      assert LocalAttempt(db, AttemptId(k, n));
    }
    LocalStepKeepsInv(db, d, k, p);
  }

  lemma PrepareKeepsInv(db: Db, lease: Claimed, now: int, p: Policy)
    requires Inv(db, p) && PrepareAttempt(db, lease, now, p).Ok?
    ensures Inv(PrepareAttempt(db, lease, now, p).value, p)
  {
    assert InstancesInv(db);
    hide Inv, RowsInv, NumberedInv, OwnersInv, LinkInv, LiveKeys, OnBoundLink, Pow2, Backoff;
    var k := lease.key;
    var d := PrepareAttempt(db, lease, now, p).value;
    LocalFromInv(db, k, p);
    assert IsBound(db, db.outbox[k].target, lease.binding.generation, lease.binding.session);
    OneMoreAttempt(db, d, k, Attempt(db.outbox[k].target, lease.binding.generation, lease.binding.session, PERSISTED_NOT_SENT), p);
    hide *;
    LocalStepKeepsInv(db, d, k, p);
  }

  lemma OneMoreAttempt(db: Db, d: Db, k: Key, a: Attempt, p: Policy)
    requires LocalInv(db, k, p) && (forall n :: LocalAttempt(db, AttemptId(k, n))) && Known(db, k)
    requires db.outbox[k].state == DISPATCHING && db.outbox[k].attempts < p.maxAttempts
    requires a.target == db.outbox[k].target && a.target in db.instances && IsBound(db, a.target, a.generation, a.session)
    requires d == db.(outbox := db.outbox[k := db.outbox[k].(attempts := db.outbox[k].attempts + 1)],
                      attempts := db.attempts[AttemptId(k, db.outbox[k].attempts + 1) := a])
    ensures LocalStep(db, d, k, p) && OwnersSame(db, d) && LiveAt(db, k)
  {
    OnlyThisRequest(db, d, k);
    OnLinkIfMatching(db, a);
    hide OnBoundLink, Armed, OthersSame;
    forall n ensures LocalAttempt(d, AttemptId(k, n)) {
      assert LocalAttempt(db, AttemptId(k, n));
    }
  }

  lemma OnLinkIfMatching(db: Db, a: Attempt)
    requires IsBound(db, a.target, a.generation, a.session)
    ensures OnBoundLink(db.bound, a)
  {
  }

  /** The attempts of one request after one of them got a new result. */
  lemma ResultIsLocal(db: Db, d: Db, k: Key, number: nat, r: SendResult, p: Policy)
    requires forall n :: LocalAttempt(db, AttemptId(k, n))
    requires AttemptId(k, number) in db.attempts && d.instances == db.instances && d.bound == db.bound
    requires k in db.outbox && k in d.outbox && d.outbox[k].attempts == db.outbox[k].attempts && d.outbox[k].target == db.outbox[k].target
    requires d.attempts == db.attempts[AttemptId(k, number) := db.attempts[AttemptId(k, number)].(result := r)]
    requires r == WAS_SENT ==> Armed(db.attempts[AttemptId(k, number)].result)
    requires r != PERSISTED_NOT_SENT
    ensures forall n :: LocalAttempt(d, AttemptId(k, n))
  {
    forall n ensures LocalAttempt(d, AttemptId(k, n)) {
      assert LocalAttempt(db, AttemptId(k, n));
    }
  }

  lemma MarkSentKeepsInv(db: Db, k: Key, owner: string, number: nat, now: int, p: Policy)
    requires Inv(db, p) && MarkSent(db, k, owner, number, now, p).Ok?
    ensures Inv(MarkSent(db, k, owner, number, now, p).value, p)
  {
    hide Inv, RowsInv, NumberedInv, OwnersInv, LinkInv, LiveKeys, OnBoundLink, Pow2, Backoff;
    var d := MarkSent(db, k, owner, number, now, p).value;
    LocalFromInv(db, k, p);
    OnlyThisRequest(db, d, k);
    ResultIsLocal(db, d, k, number, WAS_SENT, p);
    assert HasResult(d, AttemptId(k, number), WAS_SENT);
    hide OthersSame, LocalAttempt;
    LocalStepKeepsInv(db, d, k, p);
  }

  lemma MarkNotSentKeepsInv(db: Db, k: Key, owner: string, number: nat, reason: string, now: int, p: Policy)
    requires Inv(db, p) && MarkNotSent(db, k, owner, number, reason, now).Ok?
    ensures Inv(MarkNotSent(db, k, owner, number, reason, now).value, p)
  {
    hide Inv, RowsInv, NumberedInv, OwnersInv, LinkInv, LiveKeys, OnBoundLink, Pow2, Backoff;
    var d := MarkNotSent(db, k, owner, number, reason, now).value;
    LocalFromInv(db, k, p);
    ResultIsLocal(db, d, k, number, NOT_SENT(reason), p);
    hide LocalAttempt, HasSentAttempt;
    if Live(d.outbox[k].state) {
      Requeues(db, d, k, number, reason, p);
    } else {
      RowEnds(db, d, k, p);
    }
    assert LiveAt(db, k);
    hide *;
    LocalStepKeepsInv(db, d, k, p);
  }

  lemma AttemptNotSentKeepsInv(db: Db, id: AttemptId, reason: string, p: Policy)
    requires Inv(db, p)
    ensures Inv(MarkAttemptNotSent(db, id, reason), p)
  {
    hide Inv, RowsInv, NumberedInv, OwnersInv, LinkInv, LiveKeys, OnBoundLink, Pow2, Backoff;
    var d := MarkAttemptNotSent(db, id, reason);
    if d != db {
      var k := id.key;
      LocalFromInv(db, k, p);
      assert LocalAttempt(db, AttemptId(k, id.number));
      OnlyThisRequest(db, d, k);
      ResultIsLocal(db, d, k, id.number, NOT_SENT(reason), p);
      if HasSentAttempt(db, k) { SentUntouched(db, d, id, reason); }
      hide OthersSame, LocalAttempt, HasSentAttempt;
      LocalStepKeepsInv(db, d, k, p);
    }
  }

  lemma SentUntouched(db: Db, d: Db, id: AttemptId, reason: string)
    requires d == MarkAttemptNotSent(db, id, reason) && HasSentAttempt(db, id.key)
    ensures HasSentAttempt(d, id.key)
  {
    var n :| HasResult(db, AttemptId(id.key, n), WAS_SENT);
    assert HasResult(d, AttemptId(id.key, n), WAS_SENT);
  }

  /** Rolling back requeues or ends the row, and takes the attempt's mark away. */
  lemma RollbackShape(db: Db, k: Key, number: nat, reason: string, now: int, p: Policy)
    requires Known(db, k) && db.commands[k].state == ADMITTED && RollbackSent(db, k, number, reason, now, p) != db
    ensures var d := RollbackSent(db, k, number, reason, now, p);
      && db.outbox[k].state == SENT && AttemptId(k, number) in db.attempts && k in d.outbox
      && d.outbox[k].target == db.outbox[k].target && d.outbox[k].attempts == db.outbox[k].attempts
      && d.outbox[k].lease.None? && d.outbox[k].ackDeadline.None?
      && d.attempts == SetResult(db, AttemptId(k, number), NOT_SENT(reason)).attempts
      && (if Live(d.outbox[k].state)
          then (d.outbox[k].state == HELD_NO_CONTACT || d.outbox[k].state == OUTBOX_PENDING)
               && d == SetResult(SetRow(db, k, d.outbox[k]), AttemptId(k, number), NOT_SENT(reason))
          else (d.outbox[k].state == EXPIRED || d.outbox[k].state == DELIVERY_FAILED)
               && d == SetCommand(SetRow(db, k, d.outbox[k]), k, FAILED).(attempts := d.attempts))
  {
    hide Backoff;
  }

  lemma RollbackKeepsInv(db: Db, k: Key, number: nat, reason: string, now: int, p: Policy)
    requires Inv(db, p)
    ensures Inv(RollbackSent(db, k, number, reason, now, p), p)
  {
    hide Inv, RowsInv, NumberedInv, OwnersInv, LinkInv, LiveKeys, OnBoundLink, Pow2, Backoff;
    if RollbackSent(db, k, number, reason, now, p) != db {
      LocalFromInv(db, k, p);
      RollbackShape(db, k, number, reason, now, p);
      hide RollbackSent;
      var d := RollbackSent(db, k, number, reason, now, p);
      ResultIsLocal(db, d, k, number, NOT_SENT(reason), p);
      hide LocalAttempt, HasSentAttempt;
      if Live(d.outbox[k].state) {
        Requeues(db, d, k, number, reason, p);
      } else {
        RowEnds(db, d, k, p);
      }
      assert LiveAt(db, k);
      hide *;
      LocalStepKeepsInv(db, d, k, p);
    }
  }

  lemma Requeues(db: Db, d: Db, k: Key, number: nat, reason: string, p: Policy)
    requires LocalInv(db, k, p) && Known(db, k) && Live(db.outbox[k].state) && AttemptId(k, number) in db.attempts
    requires forall n :: LocalAttempt(db, AttemptId(k, n))
    requires k in d.outbox && (d.outbox[k].state == HELD_NO_CONTACT || d.outbox[k].state == OUTBOX_PENDING)
    requires d.outbox[k].target == db.outbox[k].target && d.outbox[k].attempts == db.outbox[k].attempts
    requires d.outbox[k].lease.None? && d.outbox[k].ackDeadline.None?
    requires d == SetResult(SetRow(db, k, d.outbox[k]), AttemptId(k, number), NOT_SENT(reason))
    ensures LocalStep(db, d, k, p) && OwnersSame(db, d)
  {
    OnlyThisRequest(db, d, k);
    ResultIsLocal(db, d, k, number, NOT_SENT(reason), p);
    hide OthersSame, LocalAttempt, HasSentAttempt;
  }

  /** A live row that ends as failed, with its attempts in order. */
  lemma RowEnds(db: Db, d: Db, k: Key, p: Policy)
    requires LocalInv(db, k, p) && Known(db, k) && k in d.outbox
    requires forall n :: LocalAttempt(d, AttemptId(k, n))
    requires d.outbox[k].state == EXPIRED || d.outbox[k].state == DELIVERY_FAILED
    requires d.outbox[k].target == db.outbox[k].target && d.outbox[k].attempts == db.outbox[k].attempts
    requires d.outbox[k].lease.None? && d.outbox[k].ackDeadline.None?
    requires d.attempts.Keys == db.attempts.Keys && forall id :: id in db.attempts && id.key != k ==> d.attempts[id] == db.attempts[id]
    requires d == SetCommand(SetRow(db, k, d.outbox[k]), k, FAILED).(attempts := d.attempts)
    ensures LocalStep(db, d, k, p) && OwnersSame(db, d)
  {
    OnlyThisRequest(db, d, k);
    hide OnBoundLink, LocalAttempt, OthersSame;
  }

  lemma AckKeepsInv(db: Db, r: Receipt, p: Policy)
    requires Inv(db, p) && IngestAck(db, r).Ok?
    ensures Inv(IngestAck(db, r).value, p)
  {
    hide Inv, RowsInv, NumberedInv, OwnersInv, LinkInv, LiveKeys, OnBoundLink, Pow2, Backoff;
    hide SentOn, Correlated;
    var d := IngestAck(db, r).value;
    var k := r.key;
    if d != db {
      LocalFromInv(db, k, p);
      OnlyThisRequest(db, d, k);
      hide OthersSame, HasSentAttempt;
      forall n ensures LocalAttempt(d, AttemptId(k, n)) {
        assert LocalAttempt(db, AttemptId(k, n));
      }
      LocalStepKeepsInv(db, d, k, p);
    }
  }

  // ---------------------------------------------------------------- admission and pruning

  lemma OwnerIsUnique(db: Db, owner: Owner, k: Key)
    requires OwnersInv(db) && Owns(db, owner, k)
    ensures OwnedBy(db, owner) == Some(k)
  {
  }

  lemma NewOwner(db: Db, d: Db, key: Key, c: Command)
    requires OwnersInv(db) && key !in db.commands
    requires forall k :: k in db.commands ==> db.commands[k].owner != c.owner
    requires d.commands == db.commands[key := c]
    requires forall o :: o in d.markers ==> o in db.markers && o != c.owner
    ensures OwnersInv(d)
  {
  }

  lemma NewRequestIsLocal(db: Db, a: Admission, contact: bool, key: Key, now: int, p: Policy)
    requires LocalInv(db, key, p) && (forall n :: LocalAttempt(db, AttemptId(key, n)))
    requires Admit(db, a, contact, key, now, p).Ok? && Admit(db, a, contact, key, now, p).value.1.Fresh?
    ensures LocalStep(db, Admit(db, a, contact, key, now, p).value.0, key, p)
  {
    hide OwnedBy, OnBoundLink;
    var d := Admit(db, a, contact, key, now, p).value.0;
    forall n ensures LocalAttempt(d, AttemptId(key, n)) {
      assert LocalAttempt(db, AttemptId(key, n));
    }
  }

  lemma AdmitKeepsInv(db: Db, a: Admission, contact: bool, key: Key, now: int, p: Policy)
    requires Inv(db, p) && Admit(db, a, contact, key, now, p).Ok?
    ensures Inv(Admit(db, a, contact, key, now, p).value.0, p)
  {
    var d := Admit(db, a, contact, key, now, p).value.0;
    if OwnedBy(db, a.owner).None? {
      LocalFromInv(db, key, p);
      NewRequestIsLocal(db, a, contact, key, now, p);
      hide RowsInv, NumberedInv, OwnersInv, LiveKeys, LinkInv, LocalInv, LocalAttempt, LocalStep;
      forall k | k in db.commands ensures db.commands[k].owner != a.owner {
        assert !Owns(db, a.owner, k);
      }
      NewOwner(db, d, key, Command(a.target, a.owner, a.digest, a.mode, ADMITTED));
      AdmittedCount(db, d, key, NewRow(a, contact, now));
      FinishLocal(db, d, key, p);
    }
  }

  lemma AdmittedCount(db: Db, d: Db, key: Key, row: Row)
    requires key !in db.outbox && d.outbox == db.outbox[key := row] && Live(row.state)
    ensures |LiveKeys(d)| == |LiveKeys(db)| + 1
  {
    assert LiveKeys(d) == LiveKeys(db) + {key};
  }

  lemma FinishLocal(db: Db, d: Db, k: Key, p: Policy)
    requires Inv(db, p) && LocalStep(db, d, k, p) && OwnersInv(d) && |LiveKeys(d)| <= p.capacity
    ensures Inv(d, p)
  {
    hide RowsInv, NumberedInv, AttemptsOnLink, RowsOnLink, OwnersInv, InstancesInv, OthersSame, LocalInv, LocalAttempt, LiveKeys;
    LocalStepKeepsLists(db, d, k, p);
    InstancesCarry(db, d);
  }

  lemma PrunedIsLocal(db: Db, key: Key, now: int, retention: nat, p: Policy)
    requires RetireCommand(db, key, now, retention).Ok?
    ensures LocalStep(db, RetireCommand(db, key, now, retention).value, key, p)
  {
    hide OnBoundLink, RowInv;
  }

  lemma PrunedOwner(db: Db, key: Key, now: int, retention: nat)
    requires OwnersInv(db) && RetireCommand(db, key, now, retention).Ok?
    ensures OwnersInv(RetireCommand(db, key, now, retention).value)
  {
  }

  lemma PruneKeepsInv(db: Db, key: Key, now: int, retention: nat, p: Policy)
    requires Inv(db, p) && RetireCommand(db, key, now, retention).Ok?
    ensures Inv(RetireCommand(db, key, now, retention).value, p)
  {
    var d := RetireCommand(db, key, now, retention).value;
    PrunedIsLocal(db, key, now, retention, p);
    PrunedOwner(db, key, now, retention);
    assert !LiveAt(d, key);
    hide RowsInv, NumberedInv, OwnersInv, LinkInv, LiveKeys, LiveAt, LocalInv, LocalAttempt, OthersSame, RetireCommand;
    NothingElseRevives(db, d, key);
    FinishLocal(db, d, key, p);
  }

  // ---------------------------------------------------------------- steps on every row

  /** What a transaction over all rows has to show, request by request. */
  lemma EveryRowKeepsInv(db: Db, d: Db, p: Policy)
    requires Inv(db, p) && InstancesInv(d) && OwnersSame(db, d)
    requires forall k :: LocalInv(d, k, p)
    requires forall id :: LocalAttempt(d, id)
    requires forall k :: LiveAt(d, k) ==> LiveAt(db, k)
    ensures Inv(d, p)
  {
    hide RowsInv, NumberedInv, AttemptsOnLink, RowsOnLink, OwnersInv, InstancesInv, LocalInv, LocalAttempt, OwnersSame, LiveKeys, LiveAt;
    InvIsLocal(d, p);
    OwnersCarry(db, d);
    NoRevival(db, d);
  }

  lemma AllFromInv(db: Db, p: Policy)
    requires Inv(db, p)
    ensures forall k :: LocalInv(db, k, p)
    ensures forall id :: LocalAttempt(db, id)
  {
    hide RowsInv, NumberedInv, AttemptsOnLink, RowsOnLink, LocalInv, LocalAttempt;
    InvIsLocal(db, p);
  }

  lemma ReconcileRowKeeps(db: Db, d: Db, k: Key, now: int, p: Policy)
    requires LocalInv(db, k, p) && (forall j :: j in db.outbox ==> j in db.commands) && d == Reconcile(db, now, p)
    ensures LocalInv(d, k, p) && (LiveAt(d, k) ==> LiveAt(db, k))
  {
    if k in db.outbox {
      var v := VerdictOf(db, k, now, p);
      assert d.outbox[k] == ReconciledRow(db.outbox[k], v, now, p) && d.commands[k] == ReconciledCommand(db.commands[k], v);
      hide Backoff, Reconcile;
      if HasSentAttempt(db, k) { SameSent(db, d, k); }
      hide HasSentAttempt;
    }
  }

  lemma SameSent(db: Db, d: Db, k: Key)
    requires d.attempts == db.attempts && HasSentAttempt(db, k)
    ensures HasSentAttempt(d, k)
  {
    var n :| HasResult(db, AttemptId(k, n), WAS_SENT);
    assert HasResult(d, AttemptId(k, n), WAS_SENT);
  }

  lemma ReconcileAttemptKeeps(db: Db, d: Db, id: AttemptId, now: int, p: Policy)
    requires LocalAttempt(db, id) && (forall j :: j in db.outbox ==> j in db.commands) && d == Reconcile(db, now, p)
    ensures LocalAttempt(d, id)
  {
    hide Judge, ContactIsOpen, Backoff, ReconciledCommand;
  }

  lemma ReconcileFrame(db: Db, d: Db, now: int, p: Policy)
    requires (forall j :: j in db.outbox ==> j in db.commands) && d == Reconcile(db, now, p)
    ensures d.instances == db.instances && d.bound == db.bound && OwnersSame(db, d)
  {
    hide Judge, ContactIsOpen, Backoff, ReconciledRow;
  }

  lemma ReconcileKeepsInv(db: Db, now: int, p: Policy)
    requires Inv(db, p)
    ensures forall k :: k in db.outbox ==> k in db.commands
    ensures Inv(Reconcile(db, now, p), p)
  {
    assert RowsInv(db) && InstancesInv(db);
    assert forall k :: k in db.outbox ==> k in db.commands;
    hide RowsInv, NumberedInv, OwnersInv, LinkInv, LiveKeys, LocalInv, LocalAttempt, InstancesInv, LiveAt, Reconcile, OwnersSame, Inv;
    AllFromInv(db, p);
    var d := Reconcile(db, now, p);
    ReconcileFrame(db, d, now, p);
    InstancesCarry(db, d);
    forall k ensures LocalInv(d, k, p) && (LiveAt(d, k) ==> LiveAt(db, k)) {
      ReconcileRowKeeps(db, d, k, now, p);
    }
    forall id ensures LocalAttempt(d, id) {
      ReconcileAttemptKeeps(db, d, id, now, p);
    }
    EveryRowKeepsInv(db, d, p);
  }

  lemma ContactRowKeeps(db: Db, d: Db, k: Key, instance: nat, contact: Contact, now: int, p: Policy)
    requires LocalInv(db, k, p) && SetContact(db, instance, contact, now, p) == Ok(d)
    ensures LocalInv(d, k, p) && (LiveAt(d, k) ==> LiveAt(db, k))
  {
    if HasSentAttempt(db, k) { SameSent(db, d, k); }
    hide HasSentAttempt;
  }

  lemma ContactAttemptKeeps(db: Db, d: Db, id: AttemptId, instance: nat, contact: Contact, now: int, p: Policy)
    requires LocalAttempt(db, id) && SetContact(db, instance, contact, now, p) == Ok(d)
    ensures LocalAttempt(d, id)
  {
    hide OnBoundLink, Armed, FailCommands;
  }

  lemma ContactFrame(db: Db, d: Db, instance: nat, contact: Contact, now: int, p: Policy)
    requires InstancesInv(db) && SetContact(db, instance, contact, now, p) == Ok(d)
    ensures InstancesInv(d) && OwnersSame(db, d)
  {
    hide ContactRows;
  }

  lemma ContactKeepsInv(db: Db, instance: nat, contact: Contact, now: int, p: Policy)
    requires Inv(db, p) && SetContact(db, instance, contact, now, p).Ok?
    ensures Inv(SetContact(db, instance, contact, now, p).value, p)
  {
    assert InstancesInv(db);
    hide RowsInv, NumberedInv, OwnersInv, LinkInv, LiveKeys, LocalInv, LocalAttempt, InstancesInv, LiveAt, SetContact, OwnersSame, Inv;
    var d := SetContact(db, instance, contact, now, p).value;
    AllFromInv(db, p);
    ContactFrame(db, d, instance, contact, now, p);
    forall k ensures LocalInv(d, k, p) && (LiveAt(d, k) ==> LiveAt(db, k)) {
      ContactRowKeeps(db, d, k, instance, contact, now, p);
    }
    forall id ensures LocalAttempt(d, id) {
      ContactAttemptKeeps(db, d, id, instance, contact, now, p);
    }
    EveryRowKeepsInv(db, d, p);
  }

  // ---------------------------------------------------------------- binding

  lemma BindInstances(db: Db, b: Binding, now: int)
    requires InstancesInv(db) && Bind(db, b, now).Ok?
    ensures InstancesInv(Bind(db, b, now).value)
    ensures var d := Bind(db, b, now).value;
      && IsBound(d, b.instance, b.generation, b.session)
      && (db.bound.Some? && db.bound.value.instance != b.instance ==> b.instance !in db.instances)
  {
    hide Rebound, Revoked, RetiredRow, FailWith;
  }

  lemma BindRowKeeps(db: Db, d: Db, k: Key, b: Binding, now: int, p: Policy)
    requires InstancesInv(db) && InstancesInv(d)
    requires LocalInv(db, k, p) && (forall n :: LocalAttempt(db, AttemptId(k, n))) && Bind(db, b, now) == Ok(d)
    ensures LocalInv(d, k, p) && (LiveAt(d, k) ==> LiveAt(db, k))
  {
    hide Armed, OnBoundLink;
  }

  lemma BindAttemptKeeps(db: Db, d: Db, id: AttemptId, b: Binding, now: int)
    requires InstancesInv(db) && InstancesInv(d)
    requires LocalAttempt(db, id) && Bind(db, b, now) == Ok(d)
    ensures LocalAttempt(d, id)
  {
  }

  lemma BindOwners(db: Db, b: Binding, now: int)
    requires Bind(db, b, now).Ok?
    ensures OwnersSame(db, Bind(db, b, now).value)
  {
    hide Rebound, Revoked, RetiredRow;
  }

  lemma BindKeepsInv(db: Db, b: Binding, now: int, p: Policy)
    requires Inv(db, p) && Bind(db, b, now).Ok?
    ensures Inv(Bind(db, b, now).value, p)
  {
    assert InstancesInv(db);
    hide RowsInv, NumberedInv, OwnersInv, LinkInv, LiveKeys, LocalInv, LocalAttempt, InstancesInv, LiveAt, Bind, OwnersSame, Inv;
    var d := Bind(db, b, now).value;
    AllFromInv(db, p);
    BindInstances(db, b, now);
    BindOwners(db, b, now);
    forall k ensures LocalInv(d, k, p) && (LiveAt(d, k) ==> LiveAt(db, k)) {
      BindRowKeeps(db, d, k, b, now, p);
    }
    forall id ensures LocalAttempt(d, id) {
      BindAttemptKeeps(db, d, id, b, now);
    }
    EveryRowKeepsInv(db, d, p);
  }

  // ---------------------------------------------------------------- every step, every run

  lemma StepKeepsInv(db: Db, ev: Event, p: Policy)
    requires Inv(db, p)
    ensures Inv(Step(db, ev, p), p)
  {
    hide Inv, Admit, RetireCommand, Claim, PrepareAttempt, MarkSent, MarkNotSent, MarkAttemptNotSent, RollbackSent, IngestAck, SetContact, Reconcile, Bind;
    match ev
    case EvAdmit(a, contact, key, now) =>
      if Admit(db, a, contact, key, now, p).Ok? { AdmitKeepsInv(db, a, contact, key, now, p); }
    case EvRetire(key, now, retention) =>
      if RetireCommand(db, key, now, retention).Ok? { PruneKeepsInv(db, key, now, retention, p); }
    case EvClaim(key, owner, now, filter) =>
      if Claim(db, key, owner, now, filter, p).Ok? { ClaimKeepsInv(db, key, owner, now, filter, p); }
    case EvPrepare(lease, now) =>
      if PrepareAttempt(db, lease, now, p).Ok? { PrepareKeepsInv(db, lease, now, p); }
    case EvMarkSent(key, owner, number, now) =>
      if MarkSent(db, key, owner, number, now, p).Ok? { MarkSentKeepsInv(db, key, owner, number, now, p); }
    case EvMarkNotSent(key, owner, number, reason, now) =>
      if MarkNotSent(db, key, owner, number, reason, now).Ok? { MarkNotSentKeepsInv(db, key, owner, number, reason, now, p); }
    case EvAttemptNotSent(id, reason) => AttemptNotSentKeepsInv(db, id, reason, p);
    case EvRollback(key, number, reason, now) => RollbackKeepsInv(db, key, number, reason, now, p);
    case EvAck(receipt) =>
      if IngestAck(db, receipt).Ok? { AckKeepsInv(db, receipt, p); }
    case EvContact(instance, contact, now) =>
      if SetContact(db, instance, contact, now, p).Ok? { ContactKeepsInv(db, instance, contact, now, p); }
    case EvReconcile(now) => ReconcileKeepsInv(db, now, p);
    case EvBind(b, now) =>
      if Bind(db, b, now).Ok? { BindKeepsInv(db, b, now, p); }
  }
}
