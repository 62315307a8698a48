/**
 Downlink requests the station makes on its own when a product is complete. Repeated completion
 reports of one product lead to one command; a retry gets a new command, with the next ordinal,
 only when the one before is finished. The requests live in the command tables and leave them,
 with their downlink entry, when they are pruned.
 */
module ProductAdmission {
  import opened Bytes
  import opened OutboxModel
  import opened OutboxInvariant
  import opened OutboxSafety

  /** Which product of which original request. */
  datatype Identity = Identity(origin: Key, instance: nat, bootId: nat, productId: nat)

  /** The part of it that the Idempotency-Key is made from: the spacecraft is not in it. */
  datatype Label = Label(origin: Key, bootId: nat, productId: nat)

  function LabelOf(id: Identity): Label {
    Label(id.origin, id.bootId, id.productId)
  }

  datatype Entry = Entry(identity: Identity, ordinal: nat)

  /** The text of an Idempotency-Key, and the digest of the request body. */
  datatype Naming = Naming(keyOf: (Label, nat) -> string, digestOf: Identity -> seq<byte>)

  datatype Desk = Desk(db: Db, entries: map<Key, Entry>)

  datatype Wish = Wish(identity: Identity, mode: Mode, contact: bool, retry: bool, key: Key, expiresAt: int, now: int)

  function OwnerOf(e: Entry, n: Naming): Owner {
    Owner(DOWNLINK_PRINCIPAL, n.keyOf(LabelOf(e.identity), e.ordinal))
  }

  /** An entry of the product whose command still exists. */
  predicate IsEntry(d: Desk, id: Identity, k: Key) {
    k in d.entries && d.entries[k].identity == id && Known(d.db, k)
  }

  ghost predicate IsLatest(d: Desk, id: Identity, k: Key) {
    IsEntry(d, id, k) && forall j :: IsEntry(d, id, j) ==> d.entries[j].ordinal <= d.entries[k].ordinal
  }

  ghost function Latest(d: Desk, id: Identity): Option<Key> {
    if exists k :: IsLatest(d, id, k) then (var k :| IsLatest(d, id, k); Some(k)) else None
  }

  function Insert(db: Db, key: Key, c: Command, row: Row): Db {
    db.(commands := db.commands[key := c], outbox := db.outbox[key := row])
  }

  function NextEntry(d: Desk, last: Option<Key>, id: Identity): Entry
    requires last.Some? ==> last.value in d.entries
  {
    Entry(id, if last.Some? then d.entries[last.value].ordinal + 1 else 1)
  }

  /** The row a request starts with is that of any admission with the same mode and contact. */
  function AsAdmission(w: Wish, e: Entry, n: Naming): Admission {
    Admission(OwnerOf(e, n), n.digestOf(w.identity), w.identity.instance, w.mode, w.expiresAt)
  }

  function Inserted(d: Desk, w: Wish, e: Entry, n: Naming): Desk {
    var a := AsAdmission(w, e, n);
    Desk(Insert(d.db, w.key, Command(a.target, a.owner, a.digest, a.mode, ADMITTED), NewRow(a, w.contact, w.now)),
         d.entries[w.key := e])
  }

  /** Replay of the latest request, refusal, or a new command, outbox row and entry. */
  ghost function AdmitDownlink(d: Desk, w: Wish, n: Naming, p: Policy): Result<(Desk, Admitted), DbError> {
    var last := Latest(d, w.identity);
    if last.Some? && (!w.retry || Live(d.db.outbox[last.value].state)) then Ok((d, Replayed(last.value)))
    else
      var e := NextEntry(d, last, w.identity);
      if w.identity.instance in d.db.instances && !d.db.instances[w.identity.instance].active then Err(TargetRetired)
      else if w.mode == Immediate && !w.contact then Err(NoContactError)
      else if |LiveKeys(d.db)| >= p.capacity then Err(CapacityExhausted)
      else if w.key in d.db.commands || w.key in d.db.outbox || OwnedBy(d.db, OwnerOf(e, n)).Some? then Err(IntegrityError)
      else Ok((Inserted(d, w, e, n), Fresh(w.key)))
  }

  datatype DeskEvent =
    | Ground(ev: Event)
    | Downlink(wish: Wish)

  /** An entry goes when its command is pruned. */
  function Cascade(entries: map<Key, Entry>, db: Db): map<Key, Entry> {
    map k | k in entries && k in db.commands :: entries[k]
  }

  ghost function DeskStep(d: Desk, ev: DeskEvent, n: Naming, p: Policy): Desk {
    match ev
    case Ground(e) => var db := Step(d.db, e, p); Desk(db, Cascade(d.entries, db))
    case Downlink(w) =>
      var r := AdmitDownlink(d, w, n, p);
      if r.Ok? then r.value.0 else d
  }

  // ---------------------------------------------------------------- invariant

  /** Entries name existing commands of the station. */
  ghost predicate EntriesNamed(d: Desk, n: Naming) {
    forall k :: k in d.entries ==> Known(d.db, k) && d.db.commands[k].owner == OwnerOf(d.entries[k], n)
  }

  /** Of two entries for one product the one with the lower ordinal is finished. */
  predicate Settled(d: Desk, j: Key, k: Key)
    requires j in d.entries && k in d.entries && j in d.db.outbox
  {
    d.entries[j].identity == d.entries[k].identity && j != k ==>
      && d.entries[j].ordinal != d.entries[k].ordinal
      && (d.entries[j].ordinal < d.entries[k].ordinal ==> !Live(d.db.outbox[j].state))
  }

  ghost predicate EntriesSettled(d: Desk) {
    forall j, k :: j in d.entries && k in d.entries ==> j in d.db.outbox && Settled(d, j, k)
  }

  ghost predicate DeskInv(d: Desk, n: Naming, p: Policy) {
    Inv(d.db, p) && EntriesNamed(d, n) && EntriesSettled(d)
  }

  /** A new command on an active or unknown spacecraft, within capacity, keeps the tables consistent. */
  lemma InsertKeepsInv(db: Db, a: Admission, contact: bool, key: Key, now: int, p: Policy)
    requires Inv(db, p) && key !in db.commands && key !in db.outbox && |LiveKeys(db)| < p.capacity
    requires a.target in db.instances ==> db.instances[a.target].active
    requires a.owner.principal == DOWNLINK_PRINCIPAL && forall k :: !Owns(db, a.owner, k)
    ensures Inv(Insert(db, key, Command(a.target, a.owner, a.digest, a.mode, ADMITTED), NewRow(a, contact, now)), p)
  {
    var c, row := Command(a.target, a.owner, a.digest, a.mode, ADMITTED), NewRow(a, contact, now);
    var d := Insert(db, key, c, row);
    LocalFromInv(db, key, p);
    InsertIsLocal(db, d, a, contact, key, now, p);
    hide RowsInv, NumberedInv, OwnersInv, LiveKeys, LinkInv, LocalInv, LocalAttempt, LocalStep;
    OneMoreOwner(db, d, key, c);
    AdmittedCount(db, d, key, row);
    FinishLocal(db, d, key, p);
  }

  lemma InsertIsLocal(db: Db, d: Db, a: Admission, contact: bool, key: Key, now: int, p: Policy)
    requires LocalInv(db, key, p) && (forall n :: LocalAttempt(db, AttemptId(key, n))) && key !in db.commands && key !in db.outbox
    requires a.target in db.instances ==> db.instances[a.target].active
    requires d == Insert(db, key, Command(a.target, a.owner, a.digest, a.mode, ADMITTED), NewRow(a, contact, now))
    ensures LocalStep(db, d, key, p)
  {
    hide OnBoundLink;
    forall n ensures LocalAttempt(d, AttemptId(key, n)) {
      assert LocalAttempt(db, AttemptId(key, n));
    }
  }

  lemma OneMoreOwner(db: Db, d: Db, key: Key, c: Command)
    requires OwnersInv(db) && key !in db.commands && d.commands == db.commands[key := c] && d.markers == db.markers
    requires c.owner.principal == DOWNLINK_PRINCIPAL && forall k :: !Owns(db, c.owner, k)
    ensures OwnersInv(d)
  {
    forall k | k in db.commands ensures db.commands[k].owner != c.owner {
      assert !Owns(db, c.owner, k);
    }
  }

  /** A command that stays keeps its owner. */
  lemma StepKeepsOwner(db: Db, ev: Event, k: Key, p: Policy)
    requires k in db.commands && k in Step(db, ev, p).commands
    ensures Step(db, ev, p).commands[k].owner == db.commands[k].owner
  {
    hide Backoff, RevokeAttempts, LiveKeys, OwnedBy, SentOn, AckAttempts, ContactRows, NewRow;
  }

  lemma PruneRemoves(db: Db, ev: Event, k: Key, p: Policy)
    requires Prunes(ev, k) && k in Step(db, ev, p).commands
    ensures Step(db, ev, p) == db
  {
  }

  /** A finished command that stays in the tables stays finished. */
  lemma FinishedStays(db: Db, ev: Event, k: Key, p: Policy)
    requires Inv(db, p) && Known(db, k) && !Live(db.outbox[k].state) && k in Step(db, ev, p).commands
    ensures k in Step(db, ev, p).outbox && !Live(Step(db, ev, p).outbox[k].state)
  {
    hide Inv, Step;
    if Prunes(ev, k) {
      PruneRemoves(db, ev, k, p);
    } else {
      FinishedIsAbsorbing(db, ev, k, p);
    }
  }

  lemma KnownFromInv(db: Db, k: Key, p: Policy)
    requires Inv(db, p) && k in db.commands
    ensures Known(db, k)
  {
    assert RowsInv(db);
    hide NumberedInv, OwnersInv, LinkInv, LiveKeys;
  }

  lemma GroundKeepsDesk(d: Desk, ev: Event, n: Naming, p: Policy)
    requires DeskInv(d, n, p)
    ensures DeskInv(DeskStep(d, Ground(ev), n, p), n, p)
  {
    hide Inv, Step;
    var next := DeskStep(d, Ground(ev), n, p);
    StepKeepsInv(d.db, ev, p);
    forall k | k in next.entries ensures Known(next.db, k) && next.db.commands[k].owner == OwnerOf(next.entries[k], n) {
      KnownFromInv(next.db, k, p);
      StepKeepsOwner(d.db, ev, k, p);
    }
    forall j, k | j in next.entries && k in next.entries ensures j in next.db.outbox && Settled(next, j, k) {
      assert Settled(d, j, k);
      if !Live(d.db.outbox[j].state) {
        FinishedStays(d.db, ev, j, p);
      }
    }
  }

  /** The latest entry of a product, if it has any. */
  lemma LatestIs(d: Desk, id: Identity, n: Naming)
    requires EntriesNamed(d, n) && EntriesSettled(d)
    ensures Latest(d, id).Some? ==> IsLatest(d, id, Latest(d, id).value)
    ensures Latest(d, id).None? ==> forall k :: !IsEntry(d, id, k)
    ensures forall k :: IsLatest(d, id, k) ==> Latest(d, id) == Some(k)
  {
    if Latest(d, id).None? && exists k :: IsEntry(d, id, k) {
      var keys := set k | k in d.entries && IsEntry(d, id, k);
      var k :| IsEntry(d, id, k);
      assert k in keys;
      HighestExists(d, keys);
      var h :| h in keys && forall j :: j in keys ==> d.entries[j].ordinal <= d.entries[h].ordinal;
      assert IsLatest(d, id, h);
    }
    forall k, h | IsLatest(d, id, k) && IsLatest(d, id, h) ensures k == h {
      assert Settled(d, k, h);
    }
  }

  lemma {:induction false} HighestExists(d: Desk, keys: set<Key>)
    requires keys != {} && forall k :: k in keys ==> k in d.entries
    ensures exists h :: h in keys && forall j :: j in keys ==> d.entries[j].ordinal <= d.entries[h].ordinal
  {
    var k :| k in keys;
    if keys != {k} {
      HighestExists(d, keys - {k});
      var h :| h in keys - {k} && forall j :: j in keys - {k} ==> d.entries[j].ordinal <= d.entries[h].ordinal;
      var best := if d.entries[h].ordinal < d.entries[k].ordinal then k else h;
      assert forall j :: j in keys ==> j == k || j in keys - {k};
      assert best in keys && forall j :: j in keys ==> d.entries[j].ordinal <= d.entries[best].ordinal;
    }
  }

  /** A further entry above all finished ones of its product. */
  lemma InsertedSettles(d: Desk, w: Wish, e: Entry, n: Naming)
    requires EntriesNamed(d, n) && EntriesSettled(d) && e.identity == w.identity
    requires w.key !in d.db.commands
    requires forall j :: IsEntry(d, w.identity, j) ==> d.entries[j].ordinal < e.ordinal && !Live(d.db.outbox[j].state)
    ensures EntriesNamed(Inserted(d, w, e, n), n) && EntriesSettled(Inserted(d, w, e, n))
  {
    var next := Inserted(d, w, e, n);
    hide NewRow;
    forall j, k | j in next.entries && k in next.entries ensures j in next.db.outbox && Settled(next, j, k) {
      if j != w.key && k != w.key {
        assert Settled(d, j, k);
      }
      assert j != w.key ==> IsEntry(d, d.entries[j].identity, j);
      assert k != w.key ==> IsEntry(d, d.entries[k].identity, k);
    }
  }

  lemma DownlinkKeepsDesk(d: Desk, w: Wish, n: Naming, p: Policy)
    requires DeskInv(d, n, p) && AdmitDownlink(d, w, n, p).Ok?
    ensures DeskInv(AdmitDownlink(d, w, n, p).value.0, n, p)
  {
    var last := Latest(d, w.identity);
    hide Inv, Latest, OwnedBy, NewRow, LiveKeys;
    LatestIs(d, w.identity, n);
    if AdmitDownlink(d, w, n, p).value.1.Fresh? {
      var e := NextEntry(d, last, w.identity);
      NotOwned(d.db, OwnerOf(e, n));
      InsertKeepsInv(d.db, AsAdmission(w, e, n), w.contact, w.key, w.now, p);
      BelowLatest(d, w.identity, last, e, n);
      InsertedSettles(d, w, e, n);
      hide EntriesNamed, EntriesSettled;
    }
  }

  lemma BelowLatest(d: Desk, id: Identity, last: Option<Key>, e: Entry, n: Naming)
    requires EntriesNamed(d, n) && EntriesSettled(d)
    requires last.Some? ==> IsLatest(d, id, last.value) && !Live(d.db.outbox[last.value].state)
    requires last.None? ==> forall k :: !IsEntry(d, id, k)
    requires e == NextEntry(d, last, id)
    ensures forall j :: IsEntry(d, id, j) ==> d.entries[j].ordinal < e.ordinal && !Live(d.db.outbox[j].state)
  {
    forall j | IsEntry(d, id, j) ensures d.entries[j].ordinal < e.ordinal && !Live(d.db.outbox[j].state) {
      assert Settled(d, j, last.value);
    }
  }

  lemma NotOwned(db: Db, owner: Owner)
    requires OwnedBy(db, owner).None?
    ensures forall k :: !Owns(db, owner, k)
  {
  }

  lemma DeskStepKeepsInv(d: Desk, ev: DeskEvent, n: Naming, p: Policy)
    requires DeskInv(d, n, p)
    ensures DeskInv(DeskStep(d, ev, n, p), n, p)
  {
    hide DeskInv, AdmitDownlink;
    match ev
    case Ground(e) => GroundKeepsDesk(d, e, n, p);
    case Downlink(w) => if AdmitDownlink(d, w, n, p).Ok? { DownlinkKeepsDesk(d, w, n, p); }
  }

  ghost function DeskRun(d: Desk, events: seq<DeskEvent>, n: Naming, p: Policy): Desk
    decreases |events|
  {
    if events == [] then d else DeskRun(DeskStep(d, events[0], n, p), events[1..], n, p)
  }

  lemma {:induction false} DeskRunKeepsInv(d: Desk, events: seq<DeskEvent>, n: Naming, p: Policy)
    requires DeskInv(d, n, p)
    ensures DeskInv(DeskRun(d, events, n, p), n, p)
    decreases |events|
  {
    hide DeskInv, DeskStep;
    if events != [] {
      DeskStepKeepsInv(d, events[0], n, p);
      DeskRunKeepsInv(DeskStep(d, events[0], n, p), events[1..], n, p);
    }
  }

  // ---------------------------------------------------------------- results

  const NO_ENTRIES: Desk := Desk(EMPTY, map[])

  /** After any transactions whatever, a product has at most one unfinished downlink request, the one with the highest ordinal. */
  lemma OneLiveRequestPerProduct(events: seq<DeskEvent>, n: Naming, p: Policy, id: Identity, j: Key, k: Key)
    requires var d := DeskRun(NO_ENTRIES, events, n, p);
      IsEntry(d, id, j) && IsEntry(d, id, k) && Live(d.db.outbox[j].state) && j != k
    ensures var d := DeskRun(NO_ENTRIES, events, n, p);
      d.entries[k].ordinal < d.entries[j].ordinal && !Live(d.db.outbox[k].state)
  {
    EmptyIsFine(p);
    DeskRunKeepsInv(NO_ENTRIES, events, n, p);
    var d := DeskRun(NO_ENTRIES, events, n, p);
    assert Settled(d, j, k) && Settled(d, k, j);
  }

  /**
   An accepted wish makes a new request exactly when the product has none, or a retry is wished
   and every request of the product is finished; otherwise it names the latest and changes nothing.
   */
  lemma FreshIffAllFinished(d: Desk, w: Wish, n: Naming, p: Policy)
    requires DeskInv(d, n, p) && AdmitDownlink(d, w, n, p).Ok?
    ensures var (next, outcome) := AdmitDownlink(d, w, n, p).value;
      && (outcome.Fresh? <==> (forall k :: !IsEntry(d, w.identity, k))
                               || (w.retry && forall k :: IsEntry(d, w.identity, k) ==> !Live(d.db.outbox[k].state)))
      && (outcome.Replayed? ==> next == d && IsLatest(d, w.identity, outcome.key))
      && (outcome.Fresh? ==> IsLatest(next, w.identity, w.key) && Live(next.db.outbox[w.key].state))
  {
    LatestIs(d, w.identity, n);
    var last := Latest(d, w.identity);
    hide Inv, Latest, OwnedBy, LiveKeys;
    if last.Some? {
      forall k | IsEntry(d, w.identity, k) && Live(d.db.outbox[k].state) ensures k == last.value {
        assert Settled(d, k, last.value);
      }
    }
    if AdmitDownlink(d, w, n, p).value.1.Fresh? {
      var next := AdmitDownlink(d, w, n, p).value.0;
      forall j | IsEntry(next, w.identity, j) && j != w.key
        ensures next.entries[j].ordinal <= next.entries[w.key].ordinal
      {
        assert IsEntry(d, w.identity, j);
      }
    }
  }

  /** A new request is the next of its product, under the name of its ordinal, and starts as the mode and the contact say. */
  lemma FreshDownlinkIs(d: Desk, w: Wish, n: Naming, p: Policy)
    requires DeskInv(d, n, p) && AdmitDownlink(d, w, n, p).Ok? && AdmitDownlink(d, w, n, p).value.1.Fresh?
    ensures var next := AdmitDownlink(d, w, n, p).value.0;
      && w.key in next.entries
      && var ordinal, i := next.entries[w.key].ordinal, w.identity.instance;
      && next.entries == d.entries[w.key := Entry(w.identity, ordinal)]
      && (if forall k :: !IsEntry(d, w.identity, k) then ordinal == 1
          else exists k :: IsLatest(d, w.identity, k) && ordinal == d.entries[k].ordinal + 1)
      && next.db == d.db.(
           commands := d.db.commands[w.key := Command(i, Owner(DOWNLINK_PRINCIPAL, n.keyOf(LabelOf(w.identity), ordinal)),
                                                      n.digestOf(w.identity), w.mode, ADMITTED)],
           outbox := d.db.outbox[w.key := Row(i, if w.mode == NextContact && !w.contact then HELD_NO_CONTACT else OUTBOX_PENDING,
                                              0, w.now, None, None, w.expiresAt, w.now, None)])
  {
    LatestIs(d, w.identity, n);
    hide Inv, Latest, OwnedBy, LiveKeys;
  }

  /**
   When a request is neither a replay nor admitted: its spacecraft is retired, it wants to be sent at
   once without contact, the tables are full, or its key or name is taken; the first of these names
   the refusal.
   */
  lemma RefusedIff(d: Desk, w: Wish, n: Naming, p: Policy)
    requires DeskInv(d, n, p)
    ensures var replayed := exists k :: IsEntry(d, w.identity, k) && (!w.retry || Live(d.db.outbox[k].state));
      var retired := w.identity.instance in d.db.instances && !d.db.instances[w.identity.instance].active;
      var out_of_contact := w.mode == Immediate && !w.contact;
      var full := |LiveKeys(d.db)| >= p.capacity;
      var taken := w.key in d.db.commands || OwnedBy(d.db, OwnerOf(NextEntry(d, Latest(d, w.identity), w.identity), n)).Some?;
      var r := AdmitDownlink(d, w, n, p);
      && (r == Err(TargetRetired) <==> !replayed && retired)
      && (r == Err(NoContactError) <==> !replayed && !retired && out_of_contact)
      && (r == Err(CapacityExhausted) <==> !replayed && !retired && !out_of_contact && full)
      && (r == Err(IntegrityError) <==> !replayed && !retired && !out_of_contact && !full && taken)
      && (r.Ok? <==> replayed || !(retired || out_of_contact || full || taken))
  {
    LatestIs(d, w.identity, n);
    RowIffCommand(d.db, w.key, p);
    var last := Latest(d, w.identity);
    hide Inv, Latest, OwnedBy, LiveKeys;
    if last.Some? {
      forall k | IsEntry(d, w.identity, k) && Live(d.db.outbox[k].state) ensures k == last.value {
        assert Settled(d, k, last.value);
      }
    }
  }

  lemma RowIffCommand(db: Db, k: Key, p: Policy)
    requires Inv(db, p)
    ensures k in db.commands <==> k in db.outbox
  {
    assert RowsInv(db);
    hide NumberedInv, OwnersInv, LinkInv, LiveKeys;
  }

  // ---------------------------------------------------------------- which names come back

  /** The text of the key tells labels and ordinals apart. */
  ghost predicate Distinct(n: Naming) {
    forall a, b, i, j :: n.keyOf(a, i) == n.keyOf(b, j) ==> a == b && i == j
  }

  function NameOf(l: Label, m: nat, n: Naming): Owner {
    Owner(DOWNLINK_PRINCIPAL, n.keyOf(l, m))
  }

  /** The pruned request of this name has left its marker. */
  predicate Marked(d: Desk, l: Label, m: nat, n: Naming) {
    NameOf(l, m, n) in d.db.markers
  }

  predicate IsNamed(d: Desk, k: Key, l: Label, m: nat) {
    k in d.entries && LabelOf(d.entries[k].identity) == l && d.entries[k].ordinal == m
  }

  /** A request of this name has been made: it is still there or has been pruned. */
  ghost predicate Used(d: Desk, l: Label, m: nat, n: Naming) {
    Marked(d, l, m, n) || exists k :: IsNamed(d, k, l, m)
  }

  /** No client signs on under the station's own principal. */
  predicate FromClients(ev: DeskEvent) {
    ev.Ground? && ev.ev.EvAdmit? ==> ev.ev.request.owner.principal != DOWNLINK_PRINCIPAL
  }

  /** The station's commands are all entries, ordinals count from one, and below a used ordinal all are used. */
  ghost predicate NamesInv(d: Desk, n: Naming) {
    && (forall k :: k in d.db.commands && d.db.commands[k].owner.principal == DOWNLINK_PRINCIPAL ==> k in d.entries)
    && (forall k :: k in d.entries ==> 1 <= d.entries[k].ordinal)
    && (forall l, m, j :: Used(d, l, m, n) && 1 <= j <= m ==> Used(d, l, j, n))
  }

  /** A command leaves only by being pruned, and then its name is marked; only an admission brings one. */
  ghost predicate CommandsFollow(db: Db, d: Db, ev: Event) {
    && (forall k :: k in db.commands && k !in d.commands ==> db.commands[k].owner in d.markers)
    && (forall k :: k in d.commands && k !in db.commands ==> ev.EvAdmit? && d.commands[k].owner == ev.request.owner)
  }

  /** A mark goes only by an admission under its name, and comes only by pruning a command of that name. */
  ghost predicate MarksFollow(db: Db, d: Db, ev: Event) {
    && (forall o :: o in db.markers && !(ev.EvAdmit? && ev.request.owner == o) ==> o in d.markers)
    && (forall o :: o in d.markers && o !in db.markers ==>
          exists k :: k in db.commands && db.commands[k].owner == o && Prunes(ev, k))
  }

  lemma StepCommands(db: Db, ev: Event, p: Policy)
    ensures CommandsFollow(db, Step(db, ev, p), ev)
  {
    hide Backoff, RevokeAttempts, LiveKeys, OwnedBy, SentOn, AckAttempts, ContactRows, NewRow;
  }

  lemma StepMarks(db: Db, ev: Event, p: Policy)
    ensures MarksFollow(db, Step(db, ev, p), ev)
  {
    hide Backoff, RevokeAttempts, LiveKeys, OwnedBy, SentOn, AckAttempts, ContactRows, NewRow;
    if ev.EvRetire? && RetireCommand(db, ev.key, ev.now, ev.retention).Ok? {
      assert ev.key in db.commands && Prunes(ev, ev.key);
    }
  }

  lemma GroundKeepsUsed(d: Desk, ev: Event, l: Label, m: nat, n: Naming, p: Policy)
    requires DeskInv(d, n, p) && NamesInv(d, n) && FromClients(Ground(ev)) && Distinct(n)
    ensures Used(DeskStep(d, Ground(ev), n, p), l, m, n) <==> Used(d, l, m, n)
  {
    hide Inv, Step;
    var next := DeskStep(d, Ground(ev), n, p);
    StepCommands(d.db, ev, p);
    StepMarks(d.db, ev, p);
    if Used(d, l, m, n) && !Marked(d, l, m, n) {
      var k :| IsNamed(d, k, l, m);
      assert Known(d.db, k) && d.db.commands[k].owner == NameOf(l, m, n);
      if k in next.db.commands {
        assert IsNamed(next, k, l, m);
      }
    }
    if Marked(next, l, m, n) && !Marked(d, l, m, n) {
      var k :| k in d.db.commands && d.db.commands[k].owner == NameOf(l, m, n);
      assert OwnerOf(d.entries[k], n) == NameOf(l, m, n);
      assert IsNamed(d, k, l, m);
    }
    if exists k :: IsNamed(next, k, l, m) {
      var k :| IsNamed(next, k, l, m);
      assert IsNamed(d, k, l, m);
    }
  }

  lemma GroundKeepsNames(d: Desk, ev: Event, n: Naming, p: Policy)
    requires DeskInv(d, n, p) && NamesInv(d, n) && FromClients(Ground(ev)) && Distinct(n)
    ensures NamesInv(DeskStep(d, Ground(ev), n, p), n)
  {
    hide DeskInv, Inv, Step, Used;
    var next := DeskStep(d, Ground(ev), n, p);
    forall l, m ensures Used(next, l, m, n) <==> Used(d, l, m, n) {
      GroundKeepsUsed(d, ev, l, m, n, p);
    }
    forall k | k in next.db.commands && next.db.commands[k].owner.principal == DOWNLINK_PRINCIPAL ensures k in next.entries {
      StepCommands(d.db, ev, p);
      if k in d.db.commands {
        StepKeepsOwner(d.db, ev, k, p);
      }
    }
  }

  /** A new entry adds its name to the used ones. */
  lemma InsertedNames(d: Desk, w: Wish, e: Entry, n: Naming, l: Label, m: nat)
    requires w.key !in d.entries
    ensures Used(Inserted(d, w, e, n), l, m, n) <==> Used(d, l, m, n) || (l == LabelOf(e.identity) && m == e.ordinal)
  {
    var next := Inserted(d, w, e, n);
    if exists k :: IsNamed(d, k, l, m) {
      var k :| IsNamed(d, k, l, m);
      assert IsNamed(next, k, l, m);
    }
    if exists k :: IsNamed(next, k, l, m) {
      var k :| IsNamed(next, k, l, m);
      assert k != w.key ==> IsNamed(d, k, l, m);
    }
    if l == LabelOf(e.identity) && m == e.ordinal {
      assert IsNamed(next, w.key, l, m);
    }
  }

  lemma DownlinkKeepsNames(d: Desk, w: Wish, n: Naming, p: Policy)
    requires DeskInv(d, n, p) && NamesInv(d, n) && AdmitDownlink(d, w, n, p).Ok?
    ensures NamesInv(AdmitDownlink(d, w, n, p).value.0, n)
  {
    hide Inv, Latest, OwnedBy, NewRow, LiveKeys;
    LatestIs(d, w.identity, n);
    if AdmitDownlink(d, w, n, p).value.1.Fresh? {
      var last := Latest(d, w.identity);
      var e := NextEntry(d, last, w.identity);
      var next := Inserted(d, w, e, n);
      assert w.key !in d.entries;
      if last.Some? {
        assert IsNamed(d, last.value, LabelOf(w.identity), e.ordinal - 1);
      }
      hide EntriesSettled, EntriesNamed, AdmitDownlink, IsLatest;
      assert e.ordinal > 1 ==> Used(d, LabelOf(w.identity), e.ordinal - 1, n);
      hide Used, Inserted;
      forall l, m ensures Used(next, l, m, n) <==> Used(d, l, m, n) || (l == LabelOf(e.identity) && m == e.ordinal) {
        InsertedNames(d, w, e, n, l, m);
      }
      InsertedOwners(d, w, e, n);
    }
  }

  lemma InsertedOwners(d: Desk, w: Wish, e: Entry, n: Naming)
    ensures var next := Inserted(d, w, e, n);
      && next.entries == d.entries[w.key := e]
      && (forall k :: k in next.db.commands && k != w.key ==> k in d.db.commands && next.db.commands[k] == d.db.commands[k])
  {
  }

  lemma DeskStepKeepsNames(d: Desk, ev: DeskEvent, n: Naming, p: Policy)
    requires DeskInv(d, n, p) && NamesInv(d, n) && FromClients(ev) && Distinct(n)
    ensures NamesInv(DeskStep(d, ev, n, p), n)
  {
    hide DeskInv, NamesInv, AdmitDownlink, Distinct;
    match ev
    case Ground(e) => GroundKeepsNames(d, e, n, p);
    case Downlink(w) => if AdmitDownlink(d, w, n, p).Ok? { DownlinkKeepsNames(d, w, n, p); }
  }

  lemma {:induction false} DeskRunKeepsNames(d: Desk, events: seq<DeskEvent>, n: Naming, p: Policy)
    requires DeskInv(d, n, p) && NamesInv(d, n) && Distinct(n) && forall e :: e in events ==> FromClients(e)
    ensures DeskInv(DeskRun(d, events, n, p), n, p) && NamesInv(DeskRun(d, events, n, p), n)
    decreases |events|
  {
    hide DeskInv, NamesInv, DeskStep, Distinct, FromClients;
    if events != [] {
      DeskStepKeepsInv(d, events[0], n, p);
      DeskStepKeepsNames(d, events[0], n, p);
      DeskRunKeepsNames(DeskStep(d, events[0], n, p), events[1..], n, p);
    }
  }

  /** Where every station starts. */
  lemma EmptyDesk(n: Naming, p: Policy)
    ensures DeskInv(NO_ENTRIES, n, p) && NamesInv(NO_ENTRIES, n)
  {
    EmptyIsFine(p);
    assert forall l, m :: !Used(NO_ENTRIES, l, m, n);
  }

  /**
   A new request takes the name of a pruned one exactly when a name of the product with its
   ordinal or a higher one has been used before.
   */
  lemma NextNameMarkedIff(d: Desk, w: Wish, n: Naming, p: Policy)
    requires DeskInv(d, n, p) && NamesInv(d, n) && AdmitDownlink(d, w, n, p).Ok? && AdmitDownlink(d, w, n, p).value.1.Fresh?
    ensures w.key in AdmitDownlink(d, w, n, p).value.0.entries
    ensures var e := AdmitDownlink(d, w, n, p).value.0.entries[w.key];
      && e == NextEntry(d, Latest(d, w.identity), w.identity)
      && (OwnerOf(e, n) in d.db.markers <==> exists m :: m >= e.ordinal && Used(d, LabelOf(w.identity), m, n))
  {
    LatestIs(d, w.identity, n);
    hide Inv, Latest, OwnedBy, NewRow, LiveKeys, EntriesSettled;
    var l := LabelOf(w.identity);
    var e := NextEntry(d, Latest(d, w.identity), w.identity);
    NotOwned(d.db, OwnerOf(e, n));
    if OwnerOf(e, n) in d.db.markers {
      assert Used(d, l, e.ordinal, n);
    }
    if exists m :: m >= e.ordinal && Used(d, l, m, n) {
      var m :| m >= e.ordinal && Used(d, l, m, n);
      assert Used(d, l, e.ordinal, n);
      if !Marked(d, l, e.ordinal, n) {
        var k :| IsNamed(d, k, l, e.ordinal);
        assert Owns(d.db, OwnerOf(e, n), k);
      }
    }
  }

  /** Pruning takes away one entry, and uses no new name. */
  lemma PrunedDesk(d: Desk, k: Key, at: int, retention: nat, id: Identity, n: Naming, p: Policy)
    requires DeskInv(d, n, p) && NamesInv(d, n) && Distinct(n) && k in d.entries && RetireCommand(d.db, k, at, retention).Ok?
    ensures var pruned := DeskStep(d, Ground(EvRetire(k, at, retention)), n, p);
      && DeskInv(pruned, n, p) && NamesInv(pruned, n)
      && pruned.entries == (map j | j in d.entries && j != k :: d.entries[j])
      && (forall j :: IsEntry(pruned, id, j) <==> IsEntry(d, id, j) && j != k)
      && (forall l, m :: Used(pruned, l, m, n) <==> Used(d, l, m, n))
  {
    var ev := EvRetire(k, at, retention);
    var pruned := DeskStep(d, Ground(ev), n, p);
    EntriesAfterPruning(d, k, at, retention, id, n, p);
    hide DeskStep, DeskInv, NamesInv, Used, Distinct, IsEntry, RetireCommand;
    DeskStepKeepsInv(d, Ground(ev), n, p);
    DeskStepKeepsNames(d, Ground(ev), n, p);
    forall l, m ensures Used(pruned, l, m, n) <==> Used(d, l, m, n) {
      GroundKeepsUsed(d, ev, l, m, n, p);
    }
  }

  lemma EntriesAfterPruning(d: Desk, k: Key, at: int, retention: nat, id: Identity, n: Naming, p: Policy)
    requires EntriesNamed(d, n) && k in d.entries && RetireCommand(d.db, k, at, retention).Ok?
    ensures var pruned := DeskStep(d, Ground(EvRetire(k, at, retention)), n, p);
      && pruned.entries == (map j | j in d.entries && j != k :: d.entries[j])
      && (forall j :: IsEntry(pruned, id, j) <==> IsEntry(d, id, j) && j != k)
  {
  }

  /** No name of the product above its latest request has been used. */
  ghost predicate Tops(d: Desk, id: Identity, n: Naming) {
    forall m: nat :: Used(d, LabelOf(id), m, n) ==> exists k :: IsEntry(d, id, k) && m <= d.entries[k].ordinal
  }

  /** A request of the product with a higher ordinal is still there. */
  ghost predicate HigherRemains(d: Desk, id: Identity, ordinal: nat) {
    exists j :: IsEntry(d, id, j) && ordinal < d.entries[j].ordinal
  }

  /** The ordinal a new request would get lies above all requests of the product, by one. */
  lemma NextOrdinal(d: Desk, id: Identity, bound: nat, n: Naming)
    requires EntriesNamed(d, n) && EntriesSettled(d)
    ensures Latest(d, id).Some? ==> Latest(d, id).value in d.entries
    ensures var e := NextEntry(d, Latest(d, id), id);
      && (forall j :: IsEntry(d, id, j) ==> d.entries[j].ordinal < e.ordinal)
      && (1 <= bound && (forall j :: IsEntry(d, id, j) ==> d.entries[j].ordinal < bound) ==> e.ordinal <= bound)
  {
    LatestIs(d, id, n);
    hide EntriesNamed, EntriesSettled, Latest;
  }

  /**
   After a request has been pruned, the next new one of its product takes a pruned name whenever
   no request with a higher ordinal remains. If no name above the latest request had been used
   before, this is exact: with a higher one left the next name is new.
   */
  lemma NextAfterPruning(d: Desk, k: Key, at: int, retention: nat, w: Wish, n: Naming, p: Policy)
    requires DeskInv(d, n, p) && NamesInv(d, n) && Distinct(n) && k in d.entries && d.entries[k].identity == w.identity
    requires RetireCommand(d.db, k, at, retention).Ok?
    requires var pruned := DeskStep(d, Ground(EvRetire(k, at, retention)), n, p);
      AdmitDownlink(pruned, w, n, p).Ok? && AdmitDownlink(pruned, w, n, p).value.1.Fresh?
    ensures var pruned := DeskStep(d, Ground(EvRetire(k, at, retention)), n, p);
      var again := DeskStep(pruned, Downlink(w), n, p);
      && w.key in again.entries
      && (!HigherRemains(pruned, w.identity, d.entries[k].ordinal) ==> OwnerOf(again.entries[w.key], n) in pruned.db.markers)
      && (Tops(d, w.identity, n) ==>
            (OwnerOf(again.entries[w.key], n) in pruned.db.markers <==> !HigherRemains(pruned, w.identity, d.entries[k].ordinal)))
  {
    var pruned := DeskStep(d, Ground(EvRetire(k, at, retention)), n, p);
    var id, top := w.identity, d.entries[k].ordinal;
    var l := LabelOf(id);
    PrunedDesk(d, k, at, retention, id, n, p);
    NextNameMarkedIff(pruned, w, n, p);
    NextOrdinal(pruned, id, top, n);
    FreshStep(pruned, w, n, p);
    assert IsNamed(d, k, l, top);
    assert Used(pruned, l, top, n);
    var e := NextEntry(pruned, Latest(pruned, id), id);
    assert 1 <= top;
    if !HigherRemains(pruned, id, top) {
      forall j | IsEntry(pruned, id, j) ensures pruned.entries[j].ordinal < top {
        assert IsEntry(d, id, j) && Settled(d, j, k);
      }
      assert e.ordinal <= top;
    } else if Tops(d, id, n) {
      var j :| IsEntry(pruned, id, j) && top < pruned.entries[j].ordinal;
      forall i | IsEntry(d, id, i) ensures d.entries[i].ordinal < e.ordinal {
        assert i == k || IsEntry(pruned, id, i);
      }
    }
  }

  lemma FreshStep(d: Desk, w: Wish, n: Naming, p: Policy)
    requires AdmitDownlink(d, w, n, p).Ok?
    ensures DeskStep(d, Downlink(w), n, p) == AdmitDownlink(d, w, n, p).value.0
  {
    hide AdmitDownlink;
  }

  /**
   Without that condition it is not: with the latest of three requests pruned before the first,
   the next one takes the latest's name although the second remains.
   */
  lemma EarlierPrunedNameReturns(d: Desk, first: Key, second: Key, third: Key, at: int, after: int, retention: nat, w: Wish,
                                 n: Naming, p: Policy)
    requires DeskInv(d, n, p) && NamesInv(d, n) && Distinct(n)
    requires IsEntry(d, w.identity, first) && IsEntry(d, w.identity, second) && IsEntry(d, w.identity, third)
    requires d.entries[first].ordinal < d.entries[second].ordinal < d.entries[third].ordinal
    requires forall j :: IsEntry(d, w.identity, j) ==> j == first || j == second || j == third
    requires RetireCommand(d.db, third, at, retention).Ok?
    requires var one := DeskStep(d, Ground(EvRetire(third, at, retention)), n, p);
      RetireCommand(one.db, first, after, retention).Ok?
    requires var one := DeskStep(d, Ground(EvRetire(third, at, retention)), n, p);
      var two := DeskStep(one, Ground(EvRetire(first, after, retention)), n, p);
      AdmitDownlink(two, w, n, p).Ok? && AdmitDownlink(two, w, n, p).value.1.Fresh?
    ensures var one := DeskStep(d, Ground(EvRetire(third, at, retention)), n, p);
      var two := DeskStep(one, Ground(EvRetire(first, after, retention)), n, p);
      && HigherRemains(two, w.identity, d.entries[first].ordinal)
      && w.key in DeskStep(two, Downlink(w), n, p).entries
      && OwnerOf(DeskStep(two, Downlink(w), n, p).entries[w.key], n) in two.db.markers
  {
    var id, l := w.identity, LabelOf(w.identity);
    var one := DeskStep(d, Ground(EvRetire(third, at, retention)), n, p);
    var two := DeskStep(one, Ground(EvRetire(first, after, retention)), n, p);
    PrunedDesk(d, third, at, retention, id, n, p);
    assert IsEntry(one, id, first);
    PrunedDesk(one, first, after, retention, id, n, p);
    NextNameMarkedIff(two, w, n, p);
    NextOrdinal(two, id, d.entries[third].ordinal, n);
    FreshStep(two, w, n, p);
    assert IsNamed(d, third, l, d.entries[third].ordinal);
    assert Used(two, l, d.entries[third].ordinal, n);
    assert IsEntry(two, id, second);
    hide DeskInv, NamesInv, Distinct, DeskStep, AdmitDownlink, RetireCommand, Latest, Used;
  }

  // ---------------------------------------------------------------- what can be pruned

  predicate PrunesKey(ev: DeskEvent, k: Key) {
    ev.Ground? && Prunes(ev.ev, k)
  }

  lemma EntryStays(d: Desk, ev: DeskEvent, k: Key, n: Naming, p: Policy)
    requires DeskInv(d, n, p) && NamesInv(d, n) && Distinct(n) && FromClients(ev) && k in d.entries && !PrunesKey(ev, k)
    ensures var next := DeskStep(d, ev, n, p);
      && k in next.entries && next.entries[k] == d.entries[k]
      && (OwnerOf(d.entries[k], n) in next.db.markers <==> OwnerOf(d.entries[k], n) in d.db.markers)
  {
    if ev.Ground? {
      assert Known(d.db, k) && d.db.commands[k].owner == OwnerOf(d.entries[k], n);
      hide DeskInv, EntriesNamed, EntriesSettled, Inv, NamesInv, Distinct, Step;
      OnlyPruningRemoves(d.db, ev.ev, k, p);
      StepMarks(d.db, ev.ev, p);
      if OwnerOf(d.entries[k], n) !in d.db.markers {
        OtherKeysMark(d.db, ev.ev, k, p);
      }
    } else {
      WishLeaves(d, ev.wish, k, n, p);
    }
  }

  lemma WishLeaves(d: Desk, w: Wish, k: Key, n: Naming, p: Policy)
    requires EntriesNamed(d, n) && k in d.entries
    ensures var next := DeskStep(d, Downlink(w), n, p);
      k in next.entries && next.entries[k] == d.entries[k] && next.db.markers == d.db.markers
  {
    assert Known(d.db, k);
    hide EntriesNamed, OwnedBy, Latest, LiveKeys, NewRow;
  }

  lemma OnlyPruningRemoves(db: Db, ev: Event, k: Key, p: Policy)
    requires k in db.commands && !Prunes(ev, k)
    ensures k in Step(db, ev, p).commands
  {
    hide Backoff, RevokeAttempts, LiveKeys, OwnedBy, SentOn, AckAttempts, ContactRows, NewRow;
  }

  /** Only its own pruning marks the name of a command. */
  lemma OtherKeysMark(db: Db, ev: Event, k: Key, p: Policy)
    requires Inv(db, p) && k in db.commands && !Prunes(ev, k) && db.commands[k].owner !in db.markers
    ensures db.commands[k].owner !in Step(db, ev, p).markers
  {
    StepMarks(db, ev, p);
    assert OwnersInv(db);
    hide RowsInv, NumberedInv, LinkInv, LiveKeys, Step;
  }

  /**
   Over any run without its pruning a request keeps its name, and once it is finished it can be
   pruned exactly when its name was not that of a pruned request when it was made.
   */
  lemma {:induction false} PrunableIffNameWasNew(d: Desk, events: seq<DeskEvent>, k: Key, at: int, retention: nat, n: Naming, p: Policy)
    requires DeskInv(d, n, p) && NamesInv(d, n) && Distinct(n) && k in d.entries
    requires forall e :: e in events ==> FromClients(e) && !PrunesKey(e, k)
    ensures var later := DeskRun(d, events, n, p);
      && k in later.entries && later.entries[k] == d.entries[k] && Known(later.db, k)
      && (!Live(later.db.outbox[k].state) ==>
            (RetireCommand(later.db, k, at, retention).Ok? <==> OwnerOf(d.entries[k], n) !in d.db.markers))
    decreases |events|
  {
    if events == [] {
      assert Known(d.db, k) && d.db.commands[k].owner == OwnerOf(d.entries[k], n);
      hide EntriesSettled, NamesInv, Distinct;
      if !Live(d.db.outbox[k].state) { FinishedFromInv(d.db, k, p); }
      hide Inv;
    } else {
      hide DeskInv, NamesInv, DeskStep, Distinct, FromClients, RetireCommand;
      EntryStays(d, events[0], k, n, p);
      DeskStepKeepsInv(d, events[0], n, p);
      DeskStepKeepsNames(d, events[0], n, p);
      PrunableIffNameWasNew(DeskStep(d, events[0], n, p), events[1..], k, at, retention, n, p);
    }
  }

  predicate Readmits(ev: DeskEvent, owner: Owner) {
    ev.Ground? && ev.ev.EvAdmit? && ev.ev.request.owner == owner
  }

  /** The name is marked as pruned, and stands for this command while the command exists. */
  ghost predicate Blocked(d: Desk, k: Key, owner: Owner) {
    owner in d.db.markers && (k in d.db.commands ==> d.db.commands[k].owner == owner)
  }

  lemma MarkerStays(db: Db, ev: Event, owner: Owner, p: Policy)
    requires owner in db.markers && !(ev.EvAdmit? && ev.request.owner == owner)
    ensures owner in Step(db, ev, p).markers
  {
    hide Backoff, RevokeAttempts, LiveKeys, OwnedBy, SentOn, AckAttempts, ContactRows, NewRow;
  }

  lemma BlockedCannotBePruned(db: Db, k: Key, owner: Owner, now: int, retention: nat)
    requires owner in db.markers && k in db.commands && db.commands[k].owner == owner
    ensures RetireCommand(db, k, now, retention).Err?
  {
  }

  lemma StaysBlocked(d: Desk, ev: DeskEvent, k: Key, owner: Owner, n: Naming, p: Policy)
    requires DeskInv(d, n, p) && Blocked(d, k, owner) && k in d.db.commands && !Readmits(ev, owner)
    ensures Blocked(DeskStep(d, ev, n, p), k, owner) && k in DeskStep(d, ev, n, p).db.commands
  {
    hide Inv, Step, Latest, OwnedBy, LiveKeys;
    if ev.Ground? {
      MarkerStays(d.db, ev.ev, owner, p);
      CommandStays(d.db, ev.ev, k, owner, p);
      StepKeepsOwner(d.db, ev.ev, k, p);
    }
  }

  lemma CommandStays(db: Db, ev: Event, k: Key, owner: Owner, p: Policy)
    requires owner in db.markers && k in db.commands && db.commands[k].owner == owner
    ensures k in Step(db, ev, p).commands
  {
    hide Backoff, RevokeAttempts, LiveKeys, OwnedBy, SentOn, AckAttempts, ContactRows, NewRow;
  }

  lemma {:induction false} BlockedForGood(d: Desk, events: seq<DeskEvent>, k: Key, owner: Owner, n: Naming, p: Policy)
    requires DeskInv(d, n, p) && Blocked(d, k, owner) && k in d.db.commands && forall e :: e in events ==> !Readmits(e, owner)
    ensures Blocked(DeskRun(d, events, n, p), k, owner) && k in DeskRun(d, events, n, p).db.commands
    decreases |events|
  {
    hide DeskInv, DeskStep, Blocked;
    if events != [] {
      StaysBlocked(d, events[0], k, owner, n, p);
      DeskStepKeepsInv(d, events[0], n, p);
      BlockedForGood(DeskStep(d, events[0], n, p), events[1..], k, owner, n, p);
    }
  }

  /**
   Pruning forgets the ordinal: after a product's only request, its first, has been pruned, the
   next report makes a request under the same Idempotency-Key. Its marker is still there, and
   whatever happens later, also once it is out of date, pruning the new request fails.
   */
  lemma ReadmittedCannotBePruned(d: Desk, k: Key, at: int, retention: nat, w: Wish, events: seq<DeskEvent>,
                                 later: int, retention2: nat, n: Naming, p: Policy)
    requires DeskInv(d, n, p) && k in d.entries && d.entries[k] == Entry(w.identity, 1)
    requires forall j :: IsEntry(d, w.identity, j) ==> j == k
    requires RetireCommand(d.db, k, at, retention).Ok?
    requires var pruned := DeskStep(d, Ground(EvRetire(k, at, retention)), n, p);
      AdmitDownlink(pruned, w, n, p).Ok?
    requires forall e :: e in events ==> !Readmits(e, OwnerOf(d.entries[k], n))
    ensures var pruned := DeskStep(d, Ground(EvRetire(k, at, retention)), n, p);
      var again := DeskStep(pruned, Downlink(w), n, p);
      && w.key in again.entries && again.entries[w.key] == d.entries[k]
      && RetireCommand(DeskRun(again, events, n, p).db, w.key, later, retention2).Err?
  {
    var owner := OwnerOf(d.entries[k], n);
    var pruned := DeskStep(d, Ground(EvRetire(k, at, retention)), n, p);
    var again := DeskStep(pruned, Downlink(w), n, p);
    PrunedIsGone(d, k, at, retention, w.identity, n, p);
    DeskStepKeepsInv(d, Ground(EvRetire(k, at, retention)), n, p);
    DeskStepKeepsInv(pruned, Downlink(w), n, p);
    hide DeskInv, DeskStep;
    FirstAgain(pruned, w, n, p);
    BlockedForGood(again, events, w.key, owner, n, p);
    BlockedCannotBePruned(DeskRun(again, events, n, p).db, w.key, owner, later, retention2);
  }

  lemma PrunedIsGone(d: Desk, k: Key, at: int, retention: nat, id: Identity, n: Naming, p: Policy)
    requires EntriesNamed(d, n) && k in d.entries && RetireCommand(d.db, k, at, retention).Ok?
    requires forall j :: IsEntry(d, id, j) ==> j == k
    ensures var pruned := DeskStep(d, Ground(EvRetire(k, at, retention)), n, p);
      && OwnerOf(d.entries[k], n) in pruned.db.markers
      && forall j :: !IsEntry(pruned, id, j)
  {
    var pruned := DeskStep(d, Ground(EvRetire(k, at, retention)), n, p);
    forall j ensures !IsEntry(pruned, id, j) {
      assert IsEntry(pruned, id, j) ==> IsEntry(d, id, j);
    }
  }

  lemma FirstAgain(d: Desk, w: Wish, n: Naming, p: Policy)
    requires AdmitDownlink(d, w, n, p).Ok? && forall j :: !IsEntry(d, w.identity, j)
    ensures var again := DeskStep(d, Downlink(w), n, p);
      && w.key in again.entries && again.entries[w.key] == Entry(w.identity, 1)
      && w.key in again.db.commands && again.db.commands[w.key].owner == OwnerOf(Entry(w.identity, 1), n)
      && again.db.markers == d.db.markers
  {
    hide OwnedBy, LiveKeys;
  }

  // ---------------------------------------------------------------- in place

  class DownlinkDesk {
    const naming: Naming
    const policy: Policy
    var db: Db
    var entries: map<Key, Entry>

    function Value(): Desk
      reads this
    {
      Desk(db, entries)
    }

    ghost predicate Valid()
      reads this
    {
      DeskInv(Value(), naming, policy)
    }

    /** The entry with the highest ordinal whose command exists. */
    method FindLatest(id: Identity) returns (last: Option<Key>)
      requires EntriesNamed(Value(), naming) && EntriesSettled(Value())
      ensures last == Latest(Value(), id)
    {
      LatestIs(Value(), id, naming);
      hide EntriesNamed, EntriesSettled, Latest;
      last := None;
      var todo := entries.Keys;
      while todo != {}
        invariant todo <= entries.Keys
        invariant last.Some? ==> IsEntry(Value(), id, last.value)
        invariant forall j :: IsEntry(Value(), id, j) && j !in todo ==>
                    last.Some? && entries[j].ordinal <= entries[last.value].ordinal
        decreases todo
      {
        var k :| k in todo;
        if IsEntry(Value(), id, k) && (last.None? || entries[last.value].ordinal < entries[k].ordinal) {
          last := Some(k);
        }
        todo := todo - {k};
      }
      assert last.Some? ==> IsLatest(Value(), id, last.value);
      assert Latest(Value(), id).Some? ==> IsEntry(Value(), id, Latest(Value(), id).value);
    }

    /** Whether a name already stands for a command. */
    method NameTaken(owner: Owner) returns (taken: bool)
      ensures taken <==> OwnedBy(db, owner).Some?
    {
      var todo := db.commands.Keys;
      while todo != {}
        invariant todo <= db.commands.Keys
        invariant forall k :: Owns(db, owner, k) ==> k in todo
        decreases todo
      {
        var k :| k in todo;
        if db.commands[k].owner == owner {
          assert Owns(db, owner, k);
          return true;
        }
        todo := todo - {k};
      }
      taken := false;
    }

    method AdmitProductDownlink(w: Wish) returns (r: Result<Admitted, DbError>)
      requires Valid()
      modifies this
      ensures var spec := AdmitDownlink(old(Value()), w, naming, policy);
        && (spec.Ok? ==> Value() == spec.value.0 && r == Ok(spec.value.1))
        && (spec.Err? ==> Value() == old(Value()) && r == Err(spec.error))
    {
      LatestIs(Value(), w.identity, naming);
      var last := FindLatest(w.identity);
      hide Inv, EntriesNamed, EntriesSettled, Latest, IsLatest, OwnedBy, NewRow;
      if last.Some? && (!w.retry || Live(db.outbox[last.value].state)) {
        return Ok(Replayed(last.value));
      }
      var ordinal := if last.Some? then entries[last.value].ordinal + 1 else 1;
      if w.identity.instance in db.instances && !db.instances[w.identity.instance].active {
        return Err(TargetRetired);
      }
      if w.mode == Immediate && !w.contact {
        return Err(NoContactError);
      }
      var live := set k | k in db.outbox && Live(db.outbox[k].state);
      assert live == LiveKeys(db);
      if |live| >= policy.capacity {
        return Err(CapacityExhausted);
      }
      var e := Entry(w.identity, ordinal);
      var taken := NameTaken(OwnerOf(e, naming));
      if w.key in db.commands || w.key in db.outbox || taken {
        return Err(IntegrityError);
      }
      var a := AsAdmission(w, e, naming);
      db := Insert(db, w.key, Command(a.target, a.owner, a.digest, a.mode, ADMITTED), NewRow(a, w.contact, w.now));
      entries := entries[w.key := e];
      r := Ok(Fresh(w.key));
    }
  }
}
