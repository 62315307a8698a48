/**
 Sending threads and link migrations around the binding fence, together with the tables.

 A thread that sends holds a read of the binding its lease was claimed on. Every read has a number
 of its own, so one thread may hold several, one inside the other. A migration first
 shuts the fence for new reads, waits for the running ones, changes the tables, publishes the
 new binding and opens the fence again. Each of these is a step; they interleave freely.
 Publishing happens only inside a write; `refresh` outside the fence is not modelled.
 */
module BindingFence {
  import opened Bytes
  import opened OutboxModel
  import opened OutboxInvariant
  import OutboxSafety
  import OutboxOutcomes

  datatype Writer = NoWriter | Draining | Writing | Migrated(binding: Binding, retired: Option<nat>) | Published

  datatype Station = Station(
    db: Db, published: map<nat, Binding>, holders: map<nat, Binding>, readers: nat, writeActive: bool, writer: Writer)

  datatype FenceEvent =
    | EnterRead(read: nat, binding: Binding)
    | LeaveRead(read: nat)
    | Send(read: nat, key: Key, owner: string, number: nat, now: int)
    | StartWrite
    | ReadersGone
    | MigrateTables(binding: Binding, now: int)
    | Publish
    | EndWrite
    | Transaction(ev: Event)

  /** Transactions that run without the fence: everything but migration and arming an attempt. */
  predicate Unfenced(ev: Event) {
    !ev.EvBind? && !ev.EvMarkSent?
  }

  function RetiredBy(db: Db, b: Binding): Option<nat> {
    if db.bound.Some? && db.bound.value.instance != b.instance then Some(db.bound.value.instance) else None
  }

  function Without(holders: map<nat, Binding>, t: nat): map<nat, Binding> {
    map u | u in holders && u != t :: holders[u]
  }

  /** A step whose guard does not hold waits: the state stays. */
  ghost function FenceStep(s: Station, ev: FenceEvent, p: Policy): Station {
    match ev
    case EnterRead(t, b) =>
      if s.writeActive || t in s.holders || !(b.instance in s.published && s.published[b.instance] == b) then s
      else s.(holders := s.holders[t := b], readers := s.readers + 1)
    case LeaveRead(t) =>
      if t !in s.holders || s.readers == 0 then s
      else s.(holders := Without(s.holders, t), readers := s.readers - 1)
    case Send(t, k, owner, number, now) =>
      if t !in s.holders || k !in s.db.outbox || s.db.outbox[k].target != s.holders[t].instance then s
      else s.(db := Or(MarkSent(s.db, k, owner, number, now, p), s.db))
    case StartWrite => if s.writeActive then s else s.(writeActive := true, writer := Draining)
    case ReadersGone => if s.writer == Draining && s.readers == 0 then s.(writer := Writing) else s
    case MigrateTables(b, now) =>
      if s.writer == Writing && Bind(s.db, b, now).Ok?
      then s.(db := Bind(s.db, b, now).value, writer := Migrated(b, RetiredBy(s.db, b))) else s
    case Publish =>
      if s.writer.Migrated? then
        var kept := map i | i in s.published && Some(i) != s.writer.retired :: s.published[i];
        s.(published := kept[s.writer.binding.instance := s.writer.binding], writer := Published)
      else s
    case EndWrite => if s.writer == Writing || s.writer == Published then s.(writeActive := false, writer := NoWriter) else s
    case Transaction(e) => if Unfenced(e) then s.(db := Step(s.db, e, p)) else s
  }

  predicate SameLink(bound: Option<Bound>, b: Binding) {
    bound == Some(Bound(b.instance, b.generation, b.session))
  }

  predicate HeldIsPublished(s: Station) {
    forall t :: t in s.holders ==> s.holders[t].instance in s.published && s.published[s.holders[t].instance] == s.holders[t]
  }

  /** Between migrating the tables and publishing, only the old binding can still be published. */
  predicate PublishedIsBound(s: Station) {
    forall i :: i in s.published ==>
      && s.published[i].instance == i
      && (if s.writer.Migrated? then i == s.writer.binding.instance || Some(i) == s.writer.retired
          else SameLink(s.db.bound, s.published[i]))
  }

  ghost predicate FenceInv(s: Station, p: Policy) {
    && Inv(s.db, p)
    && s.readers == |s.holders|
    && (s.writer == NoWriter <==> !s.writeActive)
    && (s.writer == Writing || s.writer.Migrated? || s.writer == Published ==> s.readers == 0)
    && (s.writer.Migrated? ==> SameLink(s.db.bound, s.writer.binding))
    && HeldIsPublished(s)
    && PublishedIsBound(s)
  }

  /** Only migration changes the recorded binding. */
  lemma UnfencedKeepsBinding(db: Db, ev: Event, p: Policy)
    requires Unfenced(ev) && forall k :: k in db.outbox ==> k in db.commands
    ensures Step(db, ev, p).bound == db.bound
  {
    hide OwnedBy, LiveKeys, SentOn, AckAttempts, Backoff, FailCommands, ContactRows;
  }

  lemma RowsHaveCommands(db: Db, p: Policy)
    requires Inv(db, p)
    ensures forall k :: k in db.outbox ==> k in db.commands
  {
    assert RowsInv(db);
    hide NumberedInv, OwnersInv, LinkInv, LiveKeys;
  }

  lemma BindRecords(db: Db, b: Binding, now: int, p: Policy)
    requires Inv(db, p) && Bind(db, b, now).Ok?
    ensures SameLink(Bind(db, b, now).value.bound, b) && Inv(Bind(db, b, now).value, p)
  {
    BindKeepsInv(db, b, now, p);
    hide Inv, RebindSame, RetireInstance;
  }

  lemma OneHolderLess(holders: map<nat, Binding>, t: nat)
    requires t in holders
    ensures |Without(holders, t)| == |holders| - 1
  {
    assert Without(holders, t).Keys == holders.Keys - {t};
  }

  lemma OneHolderMore(holders: map<nat, Binding>, t: nat, b: Binding)
    requires t !in holders
    ensures |holders[t := b]| == |holders| + 1
  {
    assert holders[t := b].Keys == holders.Keys + {t};
  }

  lemma FenceStepKeepsInv(s: Station, ev: FenceEvent, p: Policy)
    requires FenceInv(s, p)
    ensures FenceInv(FenceStep(s, ev, p), p)
  {
    hide Inv, Step, Bind, MarkSent;
    match ev
    case EnterRead(t, b) => if t !in s.holders { OneHolderMore(s.holders, t, b); }
    case LeaveRead(t) => if t in s.holders { OneHolderLess(s.holders, t); }
    case Send(t, k, owner, number, now) =>
      StepKeepsInv(s.db, EvMarkSent(k, owner, number, now), p);
      SendIsStep(s.db, k, owner, number, now, p);
    case StartWrite =>
    case ReadersGone =>
    case MigrateTables(b, now) => if Bind(s.db, b, now).Ok? { BindRecords(s.db, b, now, p); }
    case Publish =>
    case EndWrite =>
    case Transaction(e) =>
      StepKeepsInv(s.db, e, p);
      RowsHaveCommands(s.db, p);
      if Unfenced(e) { UnfencedKeepsBinding(s.db, e, p); }
  }

  lemma SendIsStep(db: Db, k: Key, owner: string, number: nat, now: int, p: Policy)
    ensures Or(MarkSent(db, k, owner, number, now, p), db) == Step(db, EvMarkSent(k, owner, number, now), p)
    ensures Step(db, EvMarkSent(k, owner, number, now), p).bound == db.bound
  {
  }

  /** Empty tables, nothing published, nobody inside. */
  const CLOSED: Station := Station(OutboxSafety.EMPTY, map[], map[], 0, false, NoWriter)

  lemma ClosedStation(p: Policy)
    ensures FenceInv(CLOSED, p)
  {
    OutboxSafety.EmptyIsFine(p);
    hide Inv;
  }

  ghost function FenceRun(s: Station, events: seq<FenceEvent>, p: Policy): Station
    decreases |events|
  {
    if events == [] then s else FenceRun(FenceStep(s, events[0], p), events[1..], p)
  }

  /** At every moment of every run, every read that is held is of the published and recorded link. */
  lemma {:induction false} ReadersSeeTheBoundLink(s: Station, events: seq<FenceEvent>, p: Policy)
    requires FenceInv(s, p)
    ensures var d := FenceRun(s, events, p);
      && FenceInv(d, p)
      && forall t :: t in d.holders ==>
           && d.holders[t].instance in d.published && d.published[d.holders[t].instance] == d.holders[t]
           && SameLink(d.db.bound, d.holders[t])
    decreases |events|
  {
    hide Inv, FenceStep;
    if events == [] {
      HoldersAreBound(s, p);
    } else {
      FenceStepKeepsInv(s, events[0], p);
      ReadersSeeTheBoundLink(FenceStep(s, events[0], p), events[1..], p);
    }
  }

  lemma HoldersAreBound(s: Station, p: Policy)
    requires FenceInv(s, p)
    ensures forall t :: t in s.holders ==> SameLink(s.db.bound, s.holders[t])
  {
    hide Inv;
    if s.holders != map[] {
      assert s.readers != 0;
    }
  }

  /** While a read is held nothing it was promised changes, whatever the others do. */
  lemma HeldLinkIsStable(s: Station, ev: FenceEvent, t: nat, p: Policy)
    requires FenceInv(s, p) && t in s.holders && t in FenceStep(s, ev, p).holders
    ensures var d := FenceStep(s, ev, p);
      && d.holders[t] == s.holders[t]
      && d.published[s.holders[t].instance] == s.holders[t]
      && d.db.bound == s.db.bound
  {
    FenceStepKeepsInv(s, ev, p);
    HoldersAreBound(s, p);
    HoldersAreBound(FenceStep(s, ev, p), p);
    hide Inv, Step, Bind, MarkSent;
  }

  /** Once a migration waits, no further read begins before it is over. */
  lemma WaitingWriterAdmitsNoReader(s: Station, ev: FenceEvent, p: Policy)
    requires FenceInv(s, p) && s.writeActive
    ensures FenceStep(s, ev, p).readers <= s.readers
  {
    hide Inv, Step, Bind, MarkSent;
  }

  /** What a send arms is an attempt on the bound link, and its read still holds that link. */
  lemma SendArmsBoundLink(s: Station, t: nat, k: Key, owner: string, number: nat, now: int, p: Policy)
    requires FenceInv(s, p) && FenceStep(s, Send(t, k, owner, number, now), p).db != s.db
    ensures var d := FenceStep(s, Send(t, k, owner, number, now), p);
      && t in d.holders && SameLink(d.db.bound, d.holders[t])
      && AttemptId(k, number) in d.db.attempts
      && d.db.attempts[AttemptId(k, number)] == Attempt(d.holders[t].instance, d.holders[t].generation, d.holders[t].session, WAS_SENT)
  {
    hide Inv, Step, MarkSent, Bind;
    var d := FenceStep(s, Send(t, k, owner, number, now), p);
    FenceStepKeepsInv(s, Send(t, k, owner, number, now), p);
    HoldersAreBound(d, p);
    assert Inv(d.db, p) && t in d.holders && d.holders == s.holders;
    SentIsArmed(s.db, d.db, k, owner, number, now, s.holders[t].instance, p);
    hide FenceInv, FenceStep, Inv;
    ArmedLink(d.db, AttemptId(k, number), p);
  }

  lemma SentIsArmed(db: Db, d: Db, k: Key, owner: string, number: nat, now: int, instance: nat, p: Policy)
    requires k in db.outbox && db.outbox[k].target == instance
    requires d == Or(MarkSent(db, k, owner, number, now, p), db) && d != db
    ensures HasResult(d, AttemptId(k, number), WAS_SENT) && k in d.outbox && d.outbox[k].target == instance
  {
  }

  lemma ArmedLink(db: Db, id: AttemptId, p: Policy)
    requires Inv(db, p) && HasResult(db, id, WAS_SENT)
    ensures id.key in db.outbox && db.attempts[id].target == db.outbox[id.key].target
    ensures OnBoundLink(db.bound, db.attempts[id])
  {
    hide RowsInv, OwnersInv, RowsOnLink, LiveKeys;
  }

  /** A read begins exactly when no migration waits or runs and what is published is the binding asked for. */
  lemma ReadBeginsIff(s: Station, t: nat, b: Binding, p: Policy)
    requires FenceInv(s, p) && t !in s.holders
    ensures var d := FenceStep(s, EnterRead(t, b), p);
      && (t in d.holders <==> s.writer == NoWriter && b.instance in s.published && s.published[b.instance] == b)
      && (t in d.holders ==> d.holders == s.holders[t := b])
      && d.db == s.db && d.published == s.published
  {
    hide Inv;
  }

  /** A send reaches the tables exactly when its read holds the row's spacecraft and the attempt may be armed. */
  lemma SendArmsIff(s: Station, t: nat, k: Key, owner: string, number: nat, now: int, p: Policy)
    requires FenceInv(s, p) && k in s.db.outbox
    ensures var row, id := s.db.outbox[k], AttemptId(k, number);
      FenceStep(s, Send(t, k, owner, number, now), p).db != s.db <==>
        && t in s.holders && s.holders[t].instance == row.target
        && OutboxOutcomes.LeasedTo(row, owner, now) && id in s.db.attempts && s.db.attempts[id].result == PERSISTED_NOT_SENT
  {
    OutboxOutcomes.ArmsIff(s.db, k, owner, number, now, p);
    hide Inv, MarkSent, HeldIsPublished, PublishedIsBound;
  }

  function Members(held: seq<nat>): set<nat> {
    set t | t in held
  }

  function Leaves(held: seq<nat>): seq<FenceEvent> {
    if held == [] then [] else [LeaveRead(held[0])] + Leaves(held[1..])
  }

  /** A fence shut for new reads empties as the running ones leave, in whatever order. */
  lemma {:induction false} ReadsDrain(s: Station, held: seq<nat>, p: Policy)
    requires FenceInv(s, p) && |held| == |s.holders| && s.holders.Keys == Members(held)
    ensures FenceRun(s, Leaves(held), p) == s.(holders := map[], readers := 0)
    decreases |held|
  {
    hide Inv;
    if held == [] {
      assert s.holders == map[];
    } else {
      var t := held[0];
      FenceStepKeepsInv(s, LeaveRead(t), p);
      OneHolderLess(s.holders, t);
      var rest := Without(s.holders, t);
      assert rest.Keys == Members(held[1..]) by {
        Distinct(held);
        assert held == [t] + held[1..];
        assert rest.Keys == s.holders.Keys - {t};
      }
      var d := FenceStep(s, LeaveRead(t), p);
      assert d == s.(holders := rest, readers := s.readers - 1);
      assert Leaves(held)[1..] == Leaves(held[1..]);
      hide FenceStep, FenceInv;
      ReadsDrain(d, held[1..], p);
    }
  }

  lemma {:induction false} AtMostAsMany(held: seq<nat>)
    ensures |Members(held)| <= |held|
  {
    if held != [] {
      AtMostAsMany(held[1..]);
      assert Members(held) == {held[0]} + Members(held[1..]);
    }
  }

  lemma Distinct(held: seq<nat>)
    requires held != [] && |Members(held)| == |held|
    ensures held[0] !in held[1..]
  {
    AtMostAsMany(held[1..]);
    assert Members(held) == {held[0]} + Members(held[1..]);
  }

  lemma {:induction false} FenceRunConcat(s: Station, a: seq<FenceEvent>, b: seq<FenceEvent>, p: Policy)
    ensures FenceRun(s, a + b, p) == FenceRun(FenceRun(s, a, p), b, p)
    decreases |a|
  {
    hide FenceStep;
    if a == [] {
      assert a + b == b;
    } else {
      assert (a + b)[1..] == a[1..] + b;
      FenceRunConcat(FenceStep(s, a[0], p), a[1..], b, p);
    }
  }

  /** What is published after a migration to b. */
  function Kept(s: Station, b: Binding): map<nat, Binding> {
    (map i | i in s.published && Some(i) != RetiredBy(s.db, b) :: s.published[i])[b.instance := b]
  }

  lemma StartShuts(s: Station, p: Policy)
    requires FenceInv(s, p) && s.writer == NoWriter
    ensures FenceStep(s, StartWrite, p) == s.(writeActive := true, writer := Draining)
    ensures FenceInv(s.(writeActive := true, writer := Draining), p)
  {
    FenceStepKeepsInv(s, StartWrite, p);
    hide Inv, HeldIsPublished, PublishedIsBound;
  }

  /** The part of a migration after the running reads have left. */
  lemma MigrationPublishes(s: Station, b: Binding, now: int, p: Policy)
    requires s.writer == Draining && s.readers == 0 && Bind(s.db, b, now).Ok?
    ensures FenceRun(s, [ReadersGone, MigrateTables(b, now), Publish, EndWrite], p)
         == s.(db := Bind(s.db, b, now).value, writer := NoWriter, writeActive := false,
               published := Kept(s, b))
  {
    hide Bind;
    var events := [ReadersGone, MigrateTables(b, now), Publish, EndWrite];
    assert events[1..] == [MigrateTables(b, now), Publish, EndWrite];
    assert events[1..][1..] == [Publish, EndWrite] && events[1..][1..][1..] == [EndWrite] && [EndWrite][1..] == [];
    var s1 := FenceStep(s, ReadersGone, p);
    var s2 := FenceStep(s1, MigrateTables(b, now), p);
    var s3 := FenceStep(s2, Publish, p);
    var s4 := FenceStep(s3, EndWrite, p);
    hide FenceStep;
    assert FenceRun(s4, [], p) == s4;
    assert FenceRun(s3, [EndWrite], p) == s4;
    assert FenceRun(s2, events[1..][1..], p) == s4;
    assert FenceRun(s1, events[1..], p) == s4;
  }

  lemma MigrationEnds(s: Station, held: seq<nat>, b: Binding, now: int, p: Policy)
    requires FenceInv(s, p) && s.writer == NoWriter && Bind(s.db, b, now).Ok?
    requires |held| == |s.holders| && s.holders.Keys == Members(held)
    ensures FenceRun(s, [StartWrite] + Leaves(held) + [ReadersGone, MigrateTables(b, now), Publish, EndWrite], p)
         == s.(db := Bind(s.db, b, now).value, holders := map[], readers := 0, published := Kept(s, b))
  {
    var last := [ReadersGone, MigrateTables(b, now), Publish, EndWrite];
    var events := [StartWrite] + Leaves(held) + last;
    var s1 := s.(writeActive := true, writer := Draining);
    StartShuts(s, p);
    hide FenceInv, Bind, Leaves, Kept, FenceStep;
    ReadsDrain(s1, held, p);
    var s2 := s1.(holders := map[], readers := 0);
    MigrationPublishes(s2, b, now, p);
    assert events[1..] == Leaves(held) + last && events[0] == StartWrite;
    FenceRunConcat(s1, Leaves(held), last, p);
    assert FenceRun(s, events, p) == FenceRun(s2, last, p);
  }

  /**
   A migration started on an open fence comes to its end as soon as the running reads leave: the new
   binding is recorded and published, the replaced spacecraft is published no more, all others
   stay, and a read of the new binding begins.
   */
  lemma MigrationCompletes(s: Station, held: seq<nat>, b: Binding, now: int, t: nat, p: Policy)
    requires FenceInv(s, p) && s.writer == NoWriter && Bind(s.db, b, now).Ok?
    requires |held| == |s.holders| && s.holders.Keys == Members(held)
    ensures var d := FenceRun(s, [StartWrite] + Leaves(held) + [ReadersGone, MigrateTables(b, now), Publish, EndWrite], p);
      && FenceInv(d, p) && d.writer == NoWriter && d.holders == map[]
      && d.db == Bind(s.db, b, now).value && SameLink(d.db.bound, b)
      && b.instance in d.published && d.published[b.instance] == b
      && (forall i :: i in d.published ==> i == b.instance || (i in s.published && d.published[i] == s.published[i]))
      && (forall i :: i in s.published && i != b.instance ==> (i !in d.published <==> Some(i) == RetiredBy(s.db, b)))
      && t in FenceStep(d, EnterRead(t, b), p).holders
  {
    var events := [StartWrite] + Leaves(held) + [ReadersGone, MigrateTables(b, now), Publish, EndWrite];
    MigrationEnds(s, held, b, now, p);
    ReadersSeeTheBoundLink(s, events, p);
    BindRecords(s.db, b, now, p);
    var d := FenceRun(s, events, p);
    hide FenceRun, Inv, Bind, FenceStep, RetiredBy;
    ReadBeginsIff(d, t, b, p);
  }

  /** A migration the tables refuse opens the fence again and leaves all as it was. */
  lemma RefusedMigrationChangesNothing(s: Station, b: Binding, now: int, p: Policy)
    requires FenceInv(s, p) && s.writer == NoWriter && s.readers == 0 && Bind(s.db, b, now).Err?
    ensures FenceRun(s, [StartWrite, ReadersGone, MigrateTables(b, now), EndWrite], p) == s
  {
    hide Inv, Bind;
    var events := [StartWrite, ReadersGone, MigrateTables(b, now), EndWrite];
    assert events[1..] == [ReadersGone, MigrateTables(b, now), EndWrite];
    assert events[1..][1..] == [MigrateTables(b, now), EndWrite] && [MigrateTables(b, now), EndWrite][1..] == [EndWrite];
    assert [EndWrite][1..] == [];
    var s1 := FenceStep(s, StartWrite, p);
    var s2 := FenceStep(s1, ReadersGone, p);
    assert FenceStep(s2, MigrateTables(b, now), p) == s2;
    var s4 := FenceStep(s2, EndWrite, p);
    assert s4 == s;
    hide FenceStep;
    assert FenceRun(s4, [], p) == s4;
    assert FenceRun(s2, [EndWrite], p) == s4;
    assert FenceRun(s2, [MigrateTables(b, now), EndWrite], p) == s4;
    assert FenceRun(s1, events[1..], p) == s4;
  }
}
