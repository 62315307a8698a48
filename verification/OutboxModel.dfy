/**
 The ground station's command tables and every transaction that changes them.

 A transaction is one step from one `Db` to the next; a refused transaction rolls back and
 leaves the `Db` as it was. Times are microseconds and are inputs of the steps.
 */
module OutboxModel {
  import opened Bytes

  datatype Key = Key(ground: nat, request: nat)

  datatype OutState = HELD_NO_CONTACT | OUTBOX_PENDING | DISPATCHING | SENT | ACKED | EXPIRED | DELIVERY_FAILED | CANCELED

  datatype CommandState = ADMITTED | COMMAND_ACKED | REJECTED | EXECUTED | FAILED | COMMAND_CANCELED

  datatype Mode = Immediate | NextContact

  datatype Contact = CONTACT_OPEN | NO_CONTACT | BLACKOUT

  datatype ErrorCode = CONTACT_LOST | TARGET_INSTANCE_RETIRED | LINK_REBOUND | MAX_ATTEMPTS | TIME_EXPIRED | OtherCode(text: string)

  datatype LeaseMark = LeaseMark(owner: string, expiresAt: int)

  datatype Row = Row(
    target: nat, state: OutState, attempts: nat, availableAt: int, lease: Option<LeaseMark>,
    ackDeadline: Option<int>, expiresAt: int, createdAt: int, error: Option<ErrorCode>)

  /** The station's own principal, under which product downlinks are requested. */
  const DOWNLINK_PRINCIPAL: string := "gds-product-downlink"

  /** Who asked: the authenticated principal and its Idempotency-Key. */
  datatype Owner = Owner(principal: string, idempotencyKey: string)

  datatype Command = Command(target: nat, owner: Owner, digest: seq<byte>, mode: Mode, state: CommandState)

  datatype Marker = Marker(digest: seq<byte>, original: Key, retainedUntil: int)

  datatype SendResult = PERSISTED_NOT_SENT | WAS_SENT | NOT_SENT(reason: string) | WAS_ACKED

  datatype Attempt = Attempt(target: nat, generation: nat, session: nat, result: SendResult)

  datatype AttemptId = AttemptId(key: Key, number: nat)

  datatype Instance = Instance(generation: nat, session: nat, active: bool, contact: Contact)

  datatype Binding = Binding(instance: nat, generation: nat, session: nat, contact: Contact)

  /** The binding recorded in the station's metadata row. */
  datatype Bound = Bound(instance: nat, generation: nat, session: nat)

  datatype Policy = Policy(leaseDuration: nat, ackTimeout: nat, baseBackoff: nat, maxBackoff: nat, maxAttempts: nat, capacity: nat)

  datatype Db = Db(
    outbox: map<Key, Row>, commands: map<Key, Command>, markers: map<Owner, Marker>,
    attempts: map<AttemptId, Attempt>, instances: map<nat, Instance>, bound: Option<Bound>)

  datatype DbError =
    | IdempotencyConflict(key: Key) | KeyRetired(key: Key) | TargetRetired | NoContactError | CapacityExhausted | IntegrityError
    | NotBound | LeaseLost | AttemptLimit | UnknownKey | NotTerminal | GenerationRegression | ContactViaBind

  datatype Claimed = Claimed(key: Key, target: nat, owner: string, binding: Binding)

  predicate Live(s: OutState) {
    s == HELD_NO_CONTACT || s == OUTBOX_PENDING || s == DISPATCHING || s == SENT
  }

  predicate CommandTerminal(s: CommandState) {
    s != ADMITTED
  }

  function Pow2(n: nat): nat {
    if n == 0 then 1 else 2 * Pow2(n - 1)
  }

  /** Doubling retry delay, capped. */
  function Backoff(p: Policy, attempts: nat): nat {
    var raw := p.baseBackoff * Pow2(if attempts == 0 then 0 else attempts - 1);
    if raw < p.maxBackoff then raw else p.maxBackoff
  }

  ghost predicate LiveAt(db: Db, k: Key) {
    k in db.outbox && Live(db.outbox[k].state)
  }

  ghost function LiveKeys(db: Db): set<Key> {
    set k | k in db.outbox && LiveAt(db, k)
  }

  // ---------------------------------------------------------------- admission

  datatype Admission = Admission(owner: Owner, digest: seq<byte>, target: nat, mode: Mode, expiresAt: int)

  datatype Admitted = Fresh(key: Key) | Replayed(key: Key)

  /** The command a principal's Idempotency-Key already stands for. */
  ghost predicate Owns(db: Db, owner: Owner, k: Key) {
    k in db.commands && db.commands[k].owner == owner
  }

  ghost function OwnedBy(db: Db, owner: Owner): Option<Key> {
    if exists k :: Owns(db, owner, k) then (var k :| Owns(db, owner, k); Some(k)) else None
  }

  predicate MarkerHolds(db: Db, owner: Owner, now: int) {
    owner in db.markers && now < db.markers[owner].retainedUntil
  }

  function NewRow(a: Admission, contact: bool, now: int): Row {
    Row(a.target, if a.mode == NextContact && !contact then HELD_NO_CONTACT else OUTBOX_PENDING, 0, now, None, None, a.expiresAt, now, None)
  }

  /** One atomic admission: replay, conflict, retained marker, refusal, or a new command with its outbox row. */
  ghost function Admit(db: Db, a: Admission, contact: bool, key: Key, now: int, p: Policy): Result<(Db, Admitted), DbError> {
    var existing := OwnedBy(db, a.owner);
    if existing.Some? then
      if db.commands[existing.value].digest != a.digest then Err(IdempotencyConflict(existing.value))
      else Ok((db, Replayed(existing.value)))
    else if MarkerHolds(db, a.owner, now) then
      var m := db.markers[a.owner];
      if m.digest != a.digest then Err(IdempotencyConflict(m.original)) else Err(KeyRetired(m.original))
    else if a.target in db.instances && !db.instances[a.target].active then Err(TargetRetired)
    else if a.mode == Immediate && !contact then Err(NoContactError)
    else if |LiveKeys(db)| >= p.capacity then Err(CapacityExhausted)
    else if key in db.commands || key in db.outbox then Err(IntegrityError)
    else Ok((db.(markers := map o | o in db.markers && o != a.owner :: db.markers[o],
                 commands := db.commands[key := Command(a.target, a.owner, a.digest, a.mode, ADMITTED)],
                 outbox := db.outbox[key := NewRow(a, contact, now)]), Fresh(key)))
  }

  /** Prunes a finished command and leaves a retained marker in its place. */
  function RetireCommand(db: Db, key: Key, now: int, retention: nat): Result<Db, DbError> {
    if key !in db.commands || key !in db.outbox then Err(UnknownKey)
    else if !CommandTerminal(db.commands[key].state) || Live(db.outbox[key].state) then Err(NotTerminal)
    else if db.commands[key].owner in db.markers then Err(IntegrityError)
    else
      var c := db.commands[key];
      Ok(db.(commands := map k | k in db.commands && k != key :: db.commands[k],
             outbox := map k | k in db.outbox && k != key :: db.outbox[k],
             attempts := map id | id in db.attempts && id.key != key :: db.attempts[id],
             markers := db.markers[c.owner := Marker(c.digest, key, now + retention)]))
  }

  // ---------------------------------------------------------------- single-row updates

  predicate Known(db: Db, k: Key) {
    k in db.outbox && k in db.commands
  }

  function SetRow(db: Db, k: Key, row: Row): Db {
    db.(outbox := db.outbox[k := row])
  }

  function SetCommand(db: Db, k: Key, s: CommandState): Db
    requires k in db.commands
  {
    db.(commands := db.commands[k := db.commands[k].(state := s)])
  }

  /** Ends a live row; a finished row or command is left alone. */
  function Terminalize(db: Db, k: Key, state: OutState, code: ErrorCode): Db
    requires Known(db, k)
  {
    var row := db.outbox[k];
    var d := if Live(row.state) then SetRow(db, k, row.(state := state, error := Some(code), lease := None, ackDeadline := None)) else db;
    if CommandTerminal(db.commands[k].state) then d
    else SetCommand(d, k, if state == ACKED then COMMAND_ACKED else FAILED)
  }

  predicate ContactIsOpen(db: Db, target: nat) {
    target in db.instances && db.instances[target].contact == CONTACT_OPEN
  }

  // ---------------------------------------------------------------- claim, attempt, send

  predicate MatchesFilter(row: Row, inst: Instance, filter: Option<Binding>) {
    filter.Some? ==>
      row.target == filter.value.instance && inst.generation == filter.value.generation && inst.session == filter.value.session
  }

  /** The row is due on an open link, and on the asked-for link if one is named. */
  predicate Claimable(db: Db, k: Key, now: int, filter: Option<Binding>) {
    && Known(db, k)
    && var row := db.outbox[k];
    && row.state == OUTBOX_PENDING && row.availableAt <= now < row.expiresAt
    && row.target in db.instances && db.instances[row.target].active && db.instances[row.target].contact == CONTACT_OPEN
    && MatchesFilter(row, db.instances[row.target], filter)
  }

  function ClaimedLease(db: Db, k: Key, owner: string): Claimed
    requires k in db.outbox && db.outbox[k].target in db.instances
  {
    var row := db.outbox[k];
    var inst := db.instances[row.target];
    Claimed(k, row.target, owner, Binding(row.target, inst.generation, inst.session, inst.contact))
  }

  function Claim(db: Db, k: Key, owner: string, now: int, filter: Option<Binding>, p: Policy): Result<Db, DbError> {
    if !Claimable(db, k, now, filter) then Err(LeaseLost)
    else Ok(SetRow(db, k, db.outbox[k].(state := DISPATCHING, lease := Some(LeaseMark(owner, now + p.leaseDuration)))))
  }

  /** The caller still holds the row under its owner name and the lease has time left. */
  predicate HoldsLease(db: Db, k: Key, owner: string, now: int) {
    && Known(db, k)
    && db.outbox[k].state == DISPATCHING
    && db.outbox[k].lease.Some? && db.outbox[k].lease.value.owner == owner && now < db.outbox[k].lease.value.expiresAt
  }

  function PrepareAttempt(db: Db, lease: Claimed, now: int, p: Policy): Result<Db, DbError> {
    if !HoldsLease(db, lease.key, lease.owner, now) || db.outbox[lease.key].target !in db.instances then Err(LeaseLost)
    else
      var row, b := db.outbox[lease.key], lease.binding;
      if row.attempts >= p.maxAttempts then Err(AttemptLimit)
      else if row.target != b.instance then Err(LeaseLost)
      else
        var inst := db.instances[row.target];
        if !inst.active || inst.generation != b.generation || inst.session != b.session || inst.contact != CONTACT_OPEN then Err(LeaseLost)
        else Ok(db.(outbox := db.outbox[lease.key := row.(attempts := row.attempts + 1)],
                    attempts := db.attempts[AttemptId(lease.key, row.attempts + 1) :=
                                              Attempt(row.target, b.generation, b.session, PERSISTED_NOT_SENT)]))
  }

  predicate HasResult(db: Db, id: AttemptId, r: SendResult) {
    id in db.attempts && db.attempts[id].result == r
  }

  function SetResult(db: Db, id: AttemptId, r: SendResult): Db
    requires id in db.attempts
  {
    db.(attempts := db.attempts[id := db.attempts[id].(result := r)])
  }

  function MarkSent(db: Db, k: Key, owner: string, number: nat, now: int, p: Policy): Result<Db, DbError> {
    if !HoldsLease(db, k, owner, now) || !HasResult(db, AttemptId(k, number), PERSISTED_NOT_SENT) then Err(LeaseLost)
    else Ok(SetResult(SetRow(db, k, db.outbox[k].(state := SENT, ackDeadline := Some(now + p.ackTimeout), lease := None, error := None)),
                      AttemptId(k, number), WAS_SENT))
  }

  function MarkNotSent(db: Db, k: Key, owner: string, number: nat, reason: string, now: int): Result<Db, DbError> {
    if !HoldsLease(db, k, owner, now) || !HasResult(db, AttemptId(k, number), PERSISTED_NOT_SENT) then Err(LeaseLost)
    else
      var row := db.outbox[k];
      var expired := row.expiresAt <= now;
      var d := SetResult(SetRow(db, k, row.(state := if expired then EXPIRED else OUTBOX_PENDING, availableAt := now, lease := None,
                                            ackDeadline := None, error := Some(OtherCode(reason)))),
                         AttemptId(k, number), NOT_SENT(reason));
      Ok(if expired && db.commands[k].state == ADMITTED then SetCommand(d, k, FAILED) else d)
  }

  function MarkAttemptNotSent(db: Db, id: AttemptId, reason: string): Db {
    if HasResult(db, id, PERSISTED_NOT_SENT) then SetResult(db, id, NOT_SENT(reason)) else db
  }

  function RolledBackRow(row: Row, mode: Mode, isOpen: bool, reason: string, now: int, p: Policy): Row {
    var ended := row.(lease := None, ackDeadline := None);
    if row.expiresAt <= now then ended.(state := EXPIRED, error := Some(TIME_EXPIRED))
    else if mode == Immediate && !isOpen then ended.(state := DELIVERY_FAILED, error := Some(CONTACT_LOST))
    else ended.(state := if mode == NextContact && !isOpen then HELD_NO_CONTACT else OUTBOX_PENDING,
                availableAt := now + Backoff(p, row.attempts), error := Some(OtherCode(reason)))
  }

  /** A send error after the attempt was armed: requeue or end, unless an acknowledgement was first. */
  function RollbackSent(db: Db, k: Key, number: nat, reason: string, now: int, p: Policy): Db {
    if !Known(db, k) || db.outbox[k].state != SENT || !HasResult(db, AttemptId(k, number), WAS_SENT) then db
    else
      var row := RolledBackRow(db.outbox[k], db.commands[k].mode, ContactIsOpen(db, db.outbox[k].target), reason, now, p);
      var d := SetResult(SetRow(db, k, row), AttemptId(k, number), NOT_SENT(reason));
      if Live(row.state) || CommandTerminal(db.commands[k].state) then d else SetCommand(d, k, FAILED)
  }

  // ---------------------------------------------------------------- acknowledgement

  datatype Correlation = Correlation(source: nat, generation: nat, session: nat)

  /** A sent attempt of this request carries exactly this link identity. */
  ghost predicate SentOn(db: Db, k: Key, c: Correlation) {
    exists n :: CarriesLink(db, AttemptId(k, n), c)
  }

  predicate CarriesLink(db: Db, id: AttemptId, c: Correlation) {
    && HasResult(db, id, WAS_SENT)
    && db.attempts[id].target == c.source && db.attempts[id].generation == c.generation && db.attempts[id].session == c.session
  }

  ghost predicate Correlated(db: Db, k: Key, c: Correlation)
    requires k in db.outbox
  {
    db.outbox[k].target == c.source && db.outbox[k].state == SENT && SentOn(db, k, c)
  }

  function AckResult(id: AttemptId, a: Attempt, k: Key): Attempt {
    if id.key == k && a.result == WAS_SENT then a.(result := WAS_ACKED) else a
  }

  function AckAttempts(attempts: map<AttemptId, Attempt>, k: Key): map<AttemptId, Attempt> {
    map id | id in attempts :: AckResult(id, attempts[id], k)
  }

  datatype Receipt = Receipt(key: Key, success: bool, code: ErrorCode, correlation: Option<Correlation>)

  ghost function IngestAck(db: Db, r: Receipt): Result<Db, DbError> {
    if !Known(db, r.key) then Err(UnknownKey)
    else if !Live(db.outbox[r.key].state) then Ok(db)
    else if r.correlation.Some? && !Correlated(db, r.key, r.correlation.value) then Ok(db)
    else if !r.success then Ok(Terminalize(db, r.key, DELIVERY_FAILED, r.code))
    else
      var row := db.outbox[r.key];
      var d := SetRow(db, r.key, row.(state := ACKED, ackDeadline := None, lease := None, error := None));
      Ok(SetCommand(d, r.key, COMMAND_ACKED).(attempts := AckAttempts(db.attempts, r.key)))
  }

  // ---------------------------------------------------------------- contact

  function ContactRow(row: Row, mode: Mode, instance: nat, contact: Contact, now: int, p: Policy): Row {
    if row.target != instance || !Live(row.state) || row.expiresAt <= now then row
    else if contact == CONTACT_OPEN then
      if mode == NextContact && row.state == HELD_NO_CONTACT then row.(state := OUTBOX_PENDING, availableAt := now)
      else if mode == NextContact && row.state == SENT && row.ackDeadline.None? then row.(ackDeadline := Some(now + p.ackTimeout))
      else row
    else if mode == Immediate then
      row.(state := DELIVERY_FAILED, error := Some(CONTACT_LOST), lease := None, ackDeadline := None)
    else if row.state == SENT then row.(ackDeadline := None)
    else if row.state == HELD_NO_CONTACT then row
    else row.(state := HELD_NO_CONTACT, lease := None, ackDeadline := None)
  }

  /** Commands of the instance whose row has failed with this code fail too. */
  function FailWith(outbox: map<Key, Row>, k: Key, c: Command, instance: nat, code: ErrorCode): Command {
    if c.target == instance && c.state == ADMITTED && k in outbox && outbox[k].state == DELIVERY_FAILED && outbox[k].error == Some(code)
    then c.(state := FAILED) else c
  }

  function FailCommands(outbox: map<Key, Row>, commands: map<Key, Command>, instance: nat, code: ErrorCode): map<Key, Command> {
    map k | k in commands :: FailWith(outbox, k, commands[k], instance, code)
  }

  function ContactRows(db: Db, instance: nat, contact: Contact, now: int, p: Policy): map<Key, Row> {
    map k | k in db.outbox ::
      if k in db.commands then ContactRow(db.outbox[k], db.commands[k].mode, instance, contact, now, p) else db.outbox[k]
  }

  function SetContact(db: Db, instance: nat, contact: Contact, now: int, p: Policy): Result<Db, DbError> {
    if instance !in db.instances || !db.instances[instance].active then Err(NotBound)
    else
      var previous := db.instances[instance].contact;
      var d := db.(instances := db.instances[instance := db.instances[instance].(contact := contact)]);
      if previous == contact then Ok(d)
      else
        var rows := ContactRows(db, instance, contact, now, p);
        Ok(d.(outbox := rows,
              commands := if contact == CONTACT_OPEN then db.commands else FailCommands(rows, db.commands, instance, CONTACT_LOST)))
  }

  // ---------------------------------------------------------------- reconcile

  datatype Verdict = Keep | Recover(to: OutState) | Retry(to: OutState) | Expire | GiveUp(code: ErrorCode, sent: bool)

  /** What is overdue about one live row. */
  function Judge(row: Row, mode: Mode, isOpen: bool, now: int, p: Policy): Verdict {
    var waiting := if mode == NextContact && !isOpen then HELD_NO_CONTACT else OUTBOX_PENDING;
    if !Live(row.state) then Keep
    else if row.expiresAt <= now then Expire
    else if row.state == DISPATCHING && row.lease.Some? && row.lease.value.expiresAt <= now then
      if mode == Immediate && !isOpen then GiveUp(CONTACT_LOST, false) else Recover(waiting)
    else if row.state == SENT && row.ackDeadline.Some? && row.ackDeadline.value <= now then
      if row.attempts >= p.maxAttempts then GiveUp(MAX_ATTEMPTS, true)
      else if mode == Immediate && !isOpen then GiveUp(CONTACT_LOST, true)
      else Retry(waiting)
    else Keep
  }

  function VerdictOf(db: Db, k: Key, now: int, p: Policy): Verdict
    requires Known(db, k)
  {
    Judge(db.outbox[k], db.commands[k].mode, ContactIsOpen(db, db.outbox[k].target), now, p)
  }

  function ReconciledRow(row: Row, v: Verdict, now: int, p: Policy): Row {
    match v
    case Keep => row
    case Recover(to) => row.(state := to, lease := None)
    case Retry(to) => row.(state := to, availableAt := now + Backoff(p, row.attempts), lease := None, ackDeadline := None)
    case Expire => row.(state := EXPIRED, error := Some(TIME_EXPIRED), lease := None, ackDeadline := None)
    case GiveUp(code, _) => row.(state := DELIVERY_FAILED, error := Some(code), lease := None, ackDeadline := None)
  }

  function ReconciledCommand(c: Command, v: Verdict): Command {
    if (v.Expire? || v.GiveUp?) && !CommandTerminal(c.state) then c.(state := FAILED) else c
  }

  function Reconcile(db: Db, now: int, p: Policy): Db
    requires forall k :: k in db.outbox ==> k in db.commands
  {
    db.(outbox := map k | k in db.outbox :: ReconciledRow(db.outbox[k], VerdictOf(db, k, now, p), now, p),
        commands := map k | k in db.commands ::
          if k in db.outbox then ReconciledCommand(db.commands[k], VerdictOf(db, k, now, p)) else db.commands[k])
  }

  // ---------------------------------------------------------------- binding

  function Rebound(row: Row, instance: nat, now: int): Row {
    if row.target == instance && Live(row.state)
    then row.(state := OUTBOX_PENDING, availableAt := now, lease := None, ackDeadline := None, error := Some(LINK_REBOUND)) else row
  }

  function Revoked(a: Attempt, instance: nat, alsoSent: bool): Attempt {
    if a.target == instance && (a.result == PERSISTED_NOT_SENT || (alsoSent && a.result == WAS_SENT))
    then a.(result := NOT_SENT("REBIND")) else a
  }

  function RetiredRow(row: Row, instance: nat): Row {
    if row.target == instance && Live(row.state)
    then row.(state := DELIVERY_FAILED, error := Some(TARGET_INSTANCE_RETIRED), lease := None, ackDeadline := None) else row
  }

  function RevokeAttempts(attempts: map<AttemptId, Attempt>, instance: nat, alsoSent: bool): map<AttemptId, Attempt> {
    map id | id in attempts :: Revoked(attempts[id], instance, alsoSent)
  }

  /** A new session of the same spacecraft: live work starts over, armed attempts lose their link. */
  function RebindSame(db: Db, instance: nat, now: int): Db {
    db.(outbox := map k | k in db.outbox :: Rebound(db.outbox[k], instance, now),
        attempts := RevokeAttempts(db.attempts, instance, true))
  }

  /** Another spacecraft takes over: the old one's live work fails and its identity is retired. */
  function RetireInstance(db: Db, instance: nat): Db {
    var rows := map k | k in db.outbox :: RetiredRow(db.outbox[k], instance);
    db.(outbox := rows,
        attempts := RevokeAttempts(db.attempts, instance, false),
        commands := FailCommands(rows, db.commands, instance, TARGET_INSTANCE_RETIRED),
        instances := if instance in db.instances
                     then db.instances[instance := db.instances[instance].(active := false, contact := NO_CONTACT)] else db.instances)
  }

  function PreviousContact(db: Db, instance: nat): Contact {
    if instance in db.instances then db.instances[instance].contact else NO_CONTACT
  }

  function Bind(db: Db, b: Binding, now: int): Result<Db, DbError> {
    var known := if b.instance in db.instances then Some(db.instances[b.instance]) else None;
    if known.Some? && !known.value.active then Err(TargetRetired)
    else if db.bound.Some? && known.Some?
            && (b.generation < known.value.generation || (b.generation == known.value.generation && b.session != known.value.session))
    then Err(GenerationRegression)
    else
      var next := Bound(b.instance, b.generation, b.session);
      if db.bound == Some(next) && PreviousContact(db, b.instance) != b.contact then Err(ContactViaBind)
      else
        var d := if db.bound.None? || db.bound == Some(next) then db
                 else if db.bound.value.instance == b.instance then RebindSame(db, b.instance, now)
                 else RetireInstance(db, db.bound.value.instance);
        Ok(d.(instances := d.instances[b.instance := Instance(b.generation, b.session, true, b.contact)], bound := Some(next)))
  }

  // ---------------------------------------------------------------- steps

  datatype Event =
    | EvAdmit(request: Admission, contact: bool, key: Key, now: int)
    | EvRetire(key: Key, now: int, retention: nat)
    | EvClaim(key: Key, owner: string, now: int, filter: Option<Binding>)
    | EvPrepare(lease: Claimed, now: int)
    | EvMarkSent(key: Key, owner: string, number: nat, now: int)
    | EvMarkNotSent(key: Key, owner: string, number: nat, reason: string, now: int)
    | EvAttemptNotSent(id: AttemptId, reason: string)
    | EvRollback(key: Key, number: nat, reason: string, now: int)
    | EvAck(receipt: Receipt)
    | EvContact(instance: nat, contactState: Contact, now: int)
    | EvReconcile(now: int)
    | EvBind(binding: Binding, now: int)

  function Or(r: Result<Db, DbError>, db: Db): Db {
    if r.Ok? then r.value else db
  }

  ghost function Step(db: Db, ev: Event, p: Policy): Db {
    match ev
    case EvAdmit(a, contact, key, now) =>
      var r := Admit(db, a, contact, key, now, p);
      if r.Ok? then r.value.0 else db
    case EvRetire(key, now, retention) => Or(RetireCommand(db, key, now, retention), db)
    case EvClaim(key, owner, now, filter) => Or(Claim(db, key, owner, now, filter, p), db)
    case EvPrepare(lease, now) => Or(PrepareAttempt(db, lease, now, p), db)
    case EvMarkSent(key, owner, number, now) => Or(MarkSent(db, key, owner, number, now, p), db)
    case EvMarkNotSent(key, owner, number, reason, now) => Or(MarkNotSent(db, key, owner, number, reason, now), db)
    case EvAttemptNotSent(id, reason) => MarkAttemptNotSent(db, id, reason)
    case EvRollback(key, number, reason, now) => RollbackSent(db, key, number, reason, now, p)
    case EvAck(receipt) => Or(IngestAck(db, receipt), db)
    case EvContact(instance, contact, now) => Or(SetContact(db, instance, contact, now, p), db)
    case EvReconcile(now) => if forall k :: k in db.outbox ==> k in db.commands then Reconcile(db, now, p) else db
    case EvBind(b, now) => Or(Bind(db, b, now), db)
  }
}
