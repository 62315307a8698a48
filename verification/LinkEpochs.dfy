/**
 The downlink of the link simulator: frame ids, the file epoch fence, the bandwidth serializer
 and the event queue of the virtual clock. One direction is modelled; its copies leave in the
 order they were admitted, and the fence keeps the DATA of a file attempt in front of the END
 or CANCEL that closes it.
 */
module LinkEpochs {
  import opened Bytes
  import FilePackets
  import opened FaultTiming

  type Kind = FilePackets.PacketType

  datatype EpochState = STARTED | DRAINING | ABORTING

  datatype Attempt = Attempt(id: nat, session: nat, boot: nat, state: EpochState)

  datatype Session = Session(id: nat, boot: nat)

  /** At most one attempt is open at a time; a closed attempt is no longer current. */
  datatype Manager = Manager(current: Option<Attempt>, nextId: nat, boot: Option<nat>)

  datatype Scheduled = Scheduled(release: nat, frameId: nat, copy: nat, epoch: nat, kind: Option<Kind>)

  datatype Downlink = Downlink(
    now: nat, available: nat, nextFrame: nat, manager: Manager, queue: seq<Scheduled>,
    delivered: seq<Scheduled>, closed: set<nat>, sent: seq<Transmission>)

  /** Draws of the original copy and of a duplicate. */
  datatype Fate = Fate(profile: Profile, first: Draws, second: Draws)

  // ---------------------------------------------------------------- the fence

  datatype Verdict = Admitted(epoch: nat) | Rejected

  function AdmitStart(m: Manager, s: Session): (Manager, Verdict) {
    if m.boot != Some(s.boot) || m.current.Some? then (m, Rejected)
    else (m.(current := Some(Attempt(m.nextId, s.id, s.boot, STARTED)), nextId := m.nextId + 1), Admitted(m.nextId))
  }

  /** START opens an attempt, DATA and END need a started one, CANCEL aborts any. */
  function AdmitPacket(m: Manager, kind: Option<Kind>, session: Option<Session>): (Manager, Verdict) {
    if kind.None? then (m, Admitted(0))
    else if session.None? then (m, Rejected)
    else if kind.value == FilePackets.START then AdmitStart(m, session.value)
    else if m.current.None? || m.current.value.session != session.value.id then (m, Rejected)
    else
      var a := m.current.value;
      match kind.value
      case DATA => if m.boot != Some(session.value.boot) || a.state != STARTED then (m, Rejected) else (m, Admitted(a.id))
      case END =>
        if m.boot != Some(session.value.boot) || a.state != STARTED then (m, Rejected)
        else (m.(current := Some(a.(state := DRAINING))), Admitted(a.id))
      case CANCEL => (m.(current := Some(a.(state := ABORTING))), Admitted(a.id))
      case START => (m, Rejected)
  }

  function OpenSession(m: Manager, boot: nat): Manager {
    if m.boot == Some(boot) then m else m.(current := None, boot := Some(boot))
  }

  function CloseSession(m: Manager, boot: nat): Manager {
    if m.boot != Some(boot) then m else m.(current := None, boot := None)
  }

  function AbortEpoch(m: Manager, epoch: nat): Manager {
    if m.current.Some? && m.current.value.id == epoch then m.(current := Some(m.current.value.(state := ABORTING))) else m
  }

  function Complete(m: Manager, epoch: nat): Manager {
    if m.current.Some? && m.current.value.id == epoch then m.(current := None) else m
  }

  // ---------------------------------------------------------------- admission

  /** The copy is to be corrupted in more bits than it has: the draw of distinct offsets is refused. */
  predicate TooManyCorruptBits(p: Profile, d: Draws, bits: nat) {
    DrawBool(p.corruptPpm, d(CORRUPT_DECISION)) && bits < p.corruptBits
  }

  /** Serializes one copy and queues it unless it is lost; nothing on time overflow or too many corrupt bits. */
  function SendCopy(l: Downlink, p: Profile, d: Draws, bits: nat, frameId: nat, copy: nat, epoch: nat, kind: Option<Kind>): Option<Downlink>
    requires 0 < p.bitrate
  {
    if TooManyCorruptBits(p, d, bits) then None
    else match TimingOf(p, d, bits, l.now, l.available)
    case None => None
    case Some(t) =>
      Some(l.(available := t.release,
              sent := l.sent + [Transmission(bits, p.bitrate, l.now, t.start, t.release)],
              queue := if DrawBool(p.lossPpm, d(LOSS)) then l.queue
                       else l.queue + [Scheduled(t.release, frameId, copy, epoch, kind)]))
  }

  /** The original copy, and the duplicate it may bring along unless it is lost. */
  function SendCopies(l: Downlink, fate: Fate, bits: nat, id: nat, epoch: nat, kind: Option<Kind>): Downlink
    requires 0 < fate.profile.bitrate
  {
    match SendCopy(l, fate.profile, fate.first, bits, id, 0, epoch, kind)
    case None => l
    case Some(one) =>
      if DrawBool(fate.profile.lossPpm, fate.first(LOSS)) || !DrawBool(fate.profile.duplicatePpm, fate.first(DUPLICATE)) then one
      else match SendCopy(one, fate.profile, fate.second, bits, id, 1, epoch, kind)
        case None => one
        case Some(two) => two
  }

  /** One frame: an id, the fence, then its copies. */
  function AdmitFrame(l: Downlink, kind: Option<Kind>, session: Option<Session>, bits: nat, fate: Fate): Downlink
    requires 0 < fate.profile.bitrate
  {
    var (manager, verdict) := AdmitPacket(l.manager, kind, session);
    var taken := l.(nextFrame := l.nextFrame + 1, manager := manager);
    if verdict.Rejected? then taken else SendCopies(taken, fate, bits, l.nextFrame, verdict.epoch, kind)
  }

  predicate Closes(s: Scheduled) {
    s.kind == Some(FilePackets.END) || s.kind == Some(FilePackets.CANCEL)
  }

  /** The next event of the clock is delivered; END and CANCEL close their attempt unless the transport fails. */
  function DeliverNext(l: Downlink, fails: bool): Downlink {
    if l.queue == [] then l
    else
      var s := l.queue[0];
      var closes := Closes(s) && !fails && l.manager.current.Some? && l.manager.current.value.id == s.epoch;
      l.(now := s.release, queue := l.queue[1..], delivered := l.delivered + [s],
         manager := if closes then Complete(l.manager, s.epoch) else l.manager,
         closed := if closes then l.closed + {s.epoch} else l.closed)
  }

  datatype LinkEvent =
    | Admit(kind: Option<Kind>, session: Option<Session>, bits: nat, fate: Fate)
    | Deliver(fails: bool)
    | Pass(until: nat)
    | Open(boot: nat)
    | Close(boot: nat)
    | Abort(epoch: nat)

  function LinkStep(l: Downlink, ev: LinkEvent): Downlink {
    match ev
    case Admit(kind, session, bits, fate) => if 0 < fate.profile.bitrate then AdmitFrame(l, kind, session, bits, fate) else l
    case Deliver(fails) => DeliverNext(l, fails)
    case Pass(until) => if l.now < until && (l.queue == [] || until <= l.queue[0].release) then l.(now := until) else l
    case Open(boot) => l.(manager := OpenSession(l.manager, boot))
    case Close(boot) => l.(manager := CloseSession(l.manager, boot))
    case Abort(epoch) => l.(manager := AbortEpoch(l.manager, epoch))
  }

  /** Profiles are validated and draws are 64-bit values. */
  ghost predicate Sane(ev: LinkEvent) {
    ev.Admit? ==> Valid(ev.fate.profile) && Bits64(ev.fate.first) && Bits64(ev.fate.second) && 0 < ev.bits
  }

  // ---------------------------------------------------------------- invariant

  /** Delivered and queued copies, in order. */
  function Timeline(l: Downlink): seq<Scheduled> {
    l.delivered + l.queue
  }

  /** Order of the event queue: release time, then frame id, then copy. */
  predicate Precedes(a: Scheduled, b: Scheduled) {
    || a.release < b.release
    || (a.release == b.release && (a.frameId < b.frameId || (a.frameId == b.frameId && a.copy < b.copy)))
  }

  /** Admission order is release order, and nothing of an attempt's DATA follows its END or CANCEL. */
  ghost predicate InOrder(ts: seq<Scheduled>) {
    forall i, j :: 0 <= i < j < |ts| ==> Precedes(ts[i], ts[j]) && !(Closes(ts[i]) && ts[j].kind == Some(FilePackets.DATA) && ts[i].epoch == ts[j].epoch)
  }

  /** An attempt whose END or CANCEL has been queued no longer admits DATA. */
  ghost predicate Fenced(m: Manager, ts: seq<Scheduled>) {
    forall i :: 0 <= i < |ts| ==>
      && (ts[i].kind.Some? ==> ts[i].epoch < m.nextId)
      && (Closes(ts[i]) && m.current.Some? && m.current.value.id == ts[i].epoch ==> m.current.value.state != STARTED)
  }

  ghost predicate LinkInv(l: Downlink) {
    && InOrder(Timeline(l)) && Fenced(l.manager, Timeline(l))
    && (l.manager.current.Some? ==> l.manager.current.value.id < l.manager.nextId)
    && (forall i :: 0 <= i < |Timeline(l)| ==> Timeline(l)[i].release <= l.available && Timeline(l)[i].frameId < l.nextFrame)
    && (forall i :: 0 <= i < |l.queue| ==> l.now <= l.queue[i].release)
    && (forall e :: e in l.closed ==> exists i :: 0 <= i < |l.delivered| && Closes(l.delivered[i]) && l.delivered[i].epoch == e)
    && Serialized(l.sent)
    && l.available == if l.sent == [] then 0 else l.sent[|l.sent| - 1].release
  }

  const IDLE: Downlink := Downlink(0, 0, 0, Manager(None, 1, None), [], [], {}, [])

  /** A copy that may be appended: released last, with the newest frame, and not past its attempt's closing packet. */
  ghost predicate Follows(ts: seq<Scheduled>, s: Scheduled) {
    forall i :: 0 <= i < |ts| ==>
      Precedes(ts[i], s) && !(Closes(ts[i]) && s.kind == Some(FilePackets.DATA) && ts[i].epoch == s.epoch)
  }

  lemma AppendInOrder(ts: seq<Scheduled>, s: Scheduled)
    requires InOrder(ts) && Follows(ts, s)
    ensures InOrder(ts + [s])
  {
    hide Precedes, Closes;
  }

  /** The frame's verdict still stands in the manager when its copies are queued. */
  predicate Standing(m: Manager, epoch: nat, kind: Option<Kind>) {
    && (kind.Some? ==> epoch < m.nextId)
    && (kind == Some(FilePackets.DATA) ==> m.current.Some? && m.current.value.id == epoch && m.current.value.state == STARTED)
    && (kind == Some(FilePackets.END) || kind == Some(FilePackets.CANCEL) ==>
          m.current.Some? && m.current.value.id == epoch && m.current.value.state != STARTED)
  }

  /** Every copy on the timeline is of an earlier frame, or an earlier copy of this one. */
  ghost predicate Newest(l: Downlink, frameId: nat, copy: nat) {
    && frameId < l.nextFrame
    && forall i :: 0 <= i < |Timeline(l)| ==>
         Timeline(l)[i].frameId < frameId || (Timeline(l)[i].frameId == frameId && Timeline(l)[i].copy < copy)
  }

  lemma SendKeepsOrder(l: Downlink, p: Profile, d: Draws, bits: nat, frameId: nat, copy: nat, epoch: nat, kind: Option<Kind>)
    requires LinkInv(l) && Valid(p) && Bits64(d) && 0 < bits
    requires SendCopy(l, p, d, bits, frameId, copy, epoch, kind).Some?
    requires Newest(l, frameId, copy) && Standing(l.manager, epoch, kind)
    ensures var next := SendCopy(l, p, d, bits, frameId, copy, epoch, kind).value;
      LinkInv(next) && Newest(next, frameId, copy + 1) && next.manager == l.manager
  {
    TimingIsSound(p, d, bits, l.now, l.available);
    SendKeepsSerialized(l.sent, p, d, bits, l.now, l.available);
    var t := TimingOf(p, d, bits, l.now, l.available).value;
    var s := Scheduled(t.release, frameId, copy, epoch, kind);
    hide TimingOf, Serialized, Valid, Bits64, DrawBool;
    assert Follows(Timeline(l), s);
    AppendInOrder(Timeline(l), s);
    assert Timeline(l) + [s] == l.delivered + (l.queue + [s]);
    hide InOrder, Follows, Precedes;
  }

  lemma PacketStands(m: Manager, kind: Option<Kind>, session: Option<Session>)
    requires m.current.Some? ==> m.current.value.id < m.nextId
    requires AdmitPacket(m, kind, session).1.Admitted?
    ensures Standing(AdmitPacket(m, kind, session).0, AdmitPacket(m, kind, session).1.epoch, kind)
  {
  }

  lemma PacketKeepsFence(m: Manager, kind: Option<Kind>, session: Option<Session>, ts: seq<Scheduled>)
    requires Fenced(m, ts) && (m.current.Some? ==> m.current.value.id < m.nextId)
    ensures var d := AdmitPacket(m, kind, session).0;
      Fenced(d, ts) && (d.current.Some? ==> d.current.value.id < d.nextId)
  {
  }

  /** Taking a frame id and a verdict, before anything is sent. */
  lemma TakenKeepsInv(l: Downlink, kind: Option<Kind>, session: Option<Session>)
    requires LinkInv(l)
    ensures var (manager, verdict) := AdmitPacket(l.manager, kind, session);
      var taken := l.(nextFrame := l.nextFrame + 1, manager := manager);
      && LinkInv(taken) && Newest(taken, l.nextFrame, 0)
      && (verdict.Admitted? ==> Standing(manager, verdict.epoch, kind))
  {
    PacketKeepsFence(l.manager, kind, session, Timeline(l));
    if AdmitPacket(l.manager, kind, session).1.Admitted? {
      PacketStands(l.manager, kind, session);
    }
    hide AdmitPacket, Fenced, InOrder, Standing, Closes;
  }

  lemma CopiesKeepInv(l: Downlink, fate: Fate, bits: nat, id: nat, epoch: nat, kind: Option<Kind>)
    requires LinkInv(l) && Valid(fate.profile) && Bits64(fate.first) && Bits64(fate.second) && 0 < bits
    requires Newest(l, id, 0) && Standing(l.manager, epoch, kind)
    ensures LinkInv(SendCopies(l, fate, bits, id, epoch, kind))
  {
    hide LinkInv, Newest, Standing, SendCopy, DrawBool, Bits64;
    var one := SendCopy(l, fate.profile, fate.first, bits, id, 0, epoch, kind);
    if one.Some? {
      SendKeepsOrder(l, fate.profile, fate.first, bits, id, 0, epoch, kind);
      if SendCopy(one.value, fate.profile, fate.second, bits, id, 1, epoch, kind).Some? {
        SendKeepsOrder(one.value, fate.profile, fate.second, bits, id, 1, epoch, kind);
      }
    }
  }

  lemma AdmitKeepsInv(l: Downlink, kind: Option<Kind>, session: Option<Session>, bits: nat, fate: Fate)
    requires LinkInv(l) && Sane(Admit(kind, session, bits, fate))
    ensures LinkInv(AdmitFrame(l, kind, session, bits, fate))
  {
    hide LinkInv, Newest, Standing, SendCopies, AdmitPacket, Bits64;
    TakenKeepsInv(l, kind, session);
    var (manager, verdict) := AdmitPacket(l.manager, kind, session);
    if verdict.Admitted? {
      CopiesKeepInv(l.(nextFrame := l.nextFrame + 1, manager := manager), fate, bits, l.nextFrame, verdict.epoch, kind);
    }
  }

  lemma DeliverKeepsInv(l: Downlink, fails: bool)
    requires LinkInv(l)
    ensures LinkInv(DeliverNext(l, fails))
  {
    if l.queue != [] {
      var d := DeliverNext(l, fails);
      assert Timeline(d) == Timeline(l);
      assert Timeline(l)[|l.delivered|] == l.queue[0];
      forall i | 0 <= i < |d.queue| ensures d.now <= d.queue[i].release {
        assert Timeline(l)[|l.delivered| + 1 + i] == d.queue[i];
        assert Precedes(Timeline(l)[|l.delivered|], Timeline(l)[|l.delivered| + 1 + i]);
      }
      forall e | e in d.closed ensures exists i :: 0 <= i < |d.delivered| && Closes(d.delivered[i]) && d.delivered[i].epoch == e {
        if e in l.closed {
          var i :| 0 <= i < |l.delivered| && Closes(l.delivered[i]) && l.delivered[i].epoch == e;
          assert d.delivered[i] == l.delivered[i];
        } else {
          assert d.delivered[|l.delivered|] == l.queue[0];
        }
      }
      hide Closes, Precedes, InOrder, Serialized;
    }
  }

  lemma LinkStepKeepsInv(l: Downlink, ev: LinkEvent)
    requires LinkInv(l) && Sane(ev)
    ensures LinkInv(LinkStep(l, ev))
  {
    match ev
    case Admit(kind, session, bits, fate) => AdmitKeepsInv(l, kind, session, bits, fate);
    case Deliver(fails) => DeliverKeepsInv(l, fails);
    case Pass(until) =>
      if l.queue != [] {
        forall i | 0 <= i < |l.queue| ensures l.queue[0].release <= l.queue[i].release {
          QueueIsSorted(l, i);
        }
      }
      hide Closes, Precedes, InOrder, Serialized, Fenced;
    case Open(boot) => hide Closes, Precedes, InOrder, Serialized;
    case Close(boot) => hide Closes, Precedes, InOrder, Serialized;
    case Abort(epoch) => hide Closes, Precedes, InOrder, Serialized;
  }

  lemma QueueIsSorted(l: Downlink, i: nat)
    requires LinkInv(l) && i < |l.queue|
    ensures i > 0 ==> Precedes(l.queue[0], l.queue[i])
    ensures l.queue[0].release <= l.queue[i].release
  {
    assert Timeline(l)[|l.delivered|] == l.queue[0] && Timeline(l)[|l.delivered| + i] == l.queue[i];
    if i > 0 {
      assert Precedes(Timeline(l)[|l.delivered|], Timeline(l)[|l.delivered| + i]);
    }
  }

  /** The copy the event queue hands out first is the one admitted first. */
  lemma EarliestIsOldest(l: Downlink, i: nat)
    requires LinkInv(l) && i < |l.queue|
    requires forall j :: 0 <= j < |l.queue| ==> !Precedes(l.queue[j], l.queue[i])
    ensures i == 0
  {
    QueueIsSorted(l, i);
    hide LinkInv;
  }

  function LinkRun(l: Downlink, events: seq<LinkEvent>): Downlink
    decreases |events|
  {
    if events == [] then l else LinkRun(LinkStep(l, events[0]), events[1..])
  }

  lemma {:induction false} LinkRunKeepsInv(l: Downlink, events: seq<LinkEvent>)
    requires LinkInv(l) && forall e :: e in events ==> Sane(e)
    ensures LinkInv(LinkRun(l, events))
    decreases |events|
  {
    if events != [] {
      LinkStepKeepsInv(l, events[0]);
      hide LinkInv, LinkStep, Sane;
      LinkRunKeepsInv(LinkStep(l, events[0]), events[1..]);
    }
  }

  /** No DATA copy of an attempt is delivered after its END or CANCEL. */
  ghost predicate NoDataAfterClosing(delivered: seq<Scheduled>) {
    forall i, j :: 0 <= i < j < |delivered| && Closes(delivered[i]) && delivered[j].kind == Some(FilePackets.DATA) ==>
      delivered[i].epoch != delivered[j].epoch
  }

  /**
   In every run of the downlink: air times are disjoint and within the bitrate (`Serialized`), no
   DATA of an attempt is delivered after END or CANCEL of that attempt, and none of a closed
   attempt is still waiting.
   */
  lemma DrainFenceHolds(events: seq<LinkEvent>)
    requires forall e :: e in events ==> Sane(e)
    ensures var l := LinkRun(IDLE, events);
      && Serialized(l.sent)
      && NoDataAfterClosing(l.delivered)
      && (forall e, i :: e in l.closed && 0 <= i < |l.queue| && l.queue[i].epoch == e ==> l.queue[i].kind != Some(FilePackets.DATA))
  {
    IdleIsFine();
    hide *;
    LinkRunKeepsInv(IDLE, events);
    ClosedMeansDelivered(LinkRun(IDLE, events));
    DeliveredInOrder(LinkRun(IDLE, events));
  }

  lemma IdleIsFine()
    ensures LinkInv(IDLE)
  {
  }

  lemma DeliveredInOrder(l: Downlink)
    requires LinkInv(l)
    ensures Serialized(l.sent) && NoDataAfterClosing(l.delivered)
  {
    assert forall i :: 0 <= i < |l.delivered| ==> Timeline(l)[i] == l.delivered[i];
    hide Closes, Precedes, Serialized, Fenced, Timeline;
  }

  lemma ClosedMeansDelivered(l: Downlink)
    requires LinkInv(l)
    ensures forall e, i :: e in l.closed && 0 <= i < |l.queue| && l.queue[i].epoch == e ==> l.queue[i].kind != Some(FilePackets.DATA)
  {
    hide Precedes, Serialized, Fenced;
    forall e, i | e in l.closed && 0 <= i < |l.queue| && l.queue[i].epoch == e ensures l.queue[i].kind != Some(FilePackets.DATA) {
      var k :| 0 <= k < |l.delivered| && Closes(l.delivered[k]) && l.delivered[k].epoch == e;
      assert Timeline(l)[k] == l.delivered[k] && Timeline(l)[|l.delivered| + i] == l.queue[i];
    }
  }

  // ---------------------------------------------------------------- copies

  /** The copy is drawn to be lost. */
  predicate Lost(p: Profile, d: Draws) {
    DrawBool(p.lossPpm, d(LOSS))
  }

  /** The serializer has room for the copy within 64 bits, and the copy for its corrupt bits. */
  predicate Sendable(l: Downlink, p: Profile, d: Draws, bits: nat)
    requires 0 < p.bitrate
  {
    && TimingOf(p, d, bits, l.now, l.available).Some?
    && !(DrawBool(p.corruptPpm, d(CORRUPT_DECISION)) && p.corruptBits > bits)
  }

  /** A copy that can be sent takes its air time; it joins the queue at its release unless it is lost. */
  lemma CopyOutcome(l: Downlink, p: Profile, d: Draws, bits: nat, id: nat, copy: nat, epoch: nat, kind: Option<Kind>)
    requires 0 < p.bitrate
    ensures var r := SendCopy(l, p, d, bits, id, copy, epoch, kind);
      && (r.Some? <==> Sendable(l, p, d, bits))
      && (r.Some? ==>
            var t := TimingOf(p, d, bits, l.now, l.available).value;
            && r.value.available == t.release && r.value.manager == l.manager && r.value.delivered == l.delivered && r.value.now == l.now
            && r.value.sent == l.sent + [Transmission(bits, p.bitrate, l.now, t.start, t.release)]
            && r.value.queue == if Lost(p, d) then l.queue else l.queue + [Scheduled(t.release, id, copy, epoch, kind)])
  {
    hide TimingOf, DrawBool;
  }

  /**
   A frame that passes the fence takes the next id. Its original is sent; exactly when that is not
   lost and a duplicate is drawn, a second copy follows it under the same id.
   */
  lemma FrameOutcome(l: Downlink, kind: Option<Kind>, session: Option<Session>, bits: nat, fate: Fate)
    requires 0 < fate.profile.bitrate && AdmitPacket(l.manager, kind, session).1.Admitted?
    ensures var p, (m, verdict) := fate.profile, AdmitPacket(l.manager, kind, session);
      var taken := l.(nextFrame := l.nextFrame + 1, manager := m);
      var d := LinkStep(l, Admit(kind, session, bits, fate));
      if !Sendable(taken, p, fate.first, bits) then d == taken
      else
        var one := SendCopy(taken, p, fate.first, bits, l.nextFrame, 0, verdict.epoch, kind).value;
        if Lost(p, fate.first) || !DrawBool(p.duplicatePpm, fate.first(DUPLICATE)) || !Sendable(one, p, fate.second, bits) then d == one
        else Some(d) == SendCopy(one, p, fate.second, bits, l.nextFrame, 1, verdict.epoch, kind)
  {
    hide TimingOf, DrawBool, AdmitPacket;
  }

  /** A frame the fence refuses takes an id and nothing else. */
  lemma RefusedFrameOutcome(l: Downlink, kind: Option<Kind>, session: Option<Session>, bits: nat, fate: Fate)
    requires 0 < fate.profile.bitrate && AdmitPacket(l.manager, kind, session).1.Rejected?
    ensures LinkStep(l, Admit(kind, session, bits, fate)) == l.(nextFrame := l.nextFrame + 1)
  {
    RefusalLeavesManager(l.manager, kind, session);
    hide AdmitPacket;
  }

  lemma RefusalLeavesManager(m: Manager, kind: Option<Kind>, session: Option<Session>)
    requires AdmitPacket(m, kind, session).1.Rejected?
    ensures AdmitPacket(m, kind, session).0 == m
  {
  }

  /** A delivery takes the clock to the release of the first copy waiting. */
  lemma DeliveryOutcome(l: Downlink, fails: bool)
    requires l.queue != []
    ensures var d := LinkStep(l, Deliver(fails));
      && d.now == l.queue[0].release && d.queue == l.queue[1..] && d.delivered == l.delivered + [l.queue[0]]
      && d.available == l.available && d.sent == l.sent && d.nextFrame == l.nextFrame
      && d.manager.boot == l.manager.boot && d.manager.nextId == l.manager.nextId
  {
  }

  /** Time passes exactly up to the release of the first copy waiting, and never backwards. */
  lemma TimePassesIff(l: Downlink, until: nat)
    ensures LinkStep(l, Pass(until)).now == until <==> l.now <= until && (l.now == until || l.queue == [] || until <= l.queue[0].release)
    ensures LinkStep(l, Pass(until)) == l.(now := LinkStep(l, Pass(until)).now)
    ensures LinkStep(l, Pass(until)).now == until || LinkStep(l, Pass(until)).now == l.now
  {
  }

  /** Sessions come and go by boot: another boot closes what was open and takes over, the same changes nothing, closing it leaves none. */
  lemma SessionOutcome(l: Downlink, boot: nat)
    ensures LinkStep(l, Open(boot)).manager == if l.manager.boot == Some(boot) then l.manager else Manager(None, l.manager.nextId, Some(boot))
    ensures LinkStep(l, Close(boot)).manager == if l.manager.boot == Some(boot) then Manager(None, l.manager.nextId, None) else l.manager
  {
  }

  /** Aborting an attempt leaves it open but takes no more of its packets. */
  lemma AbortedAttemptTakesNothing(l: Downlink, s: Session, e: nat, kind: Kind)
    requires IsOpen(l.manager, e) && kind != FilePackets.CANCEL
    ensures var m := LinkStep(l, Abort(e)).manager;
      IsOpen(m, e) && AdmitPacket(m, Some(kind), Some(s)) == (m, Rejected)
  {
  }

  // ---------------------------------------------------------------- how long an attempt stays open

  predicate IsOpen(m: Manager, e: nat) {
    m.current.Some? && m.current.value.id == e
  }

  /** A START is admitted exactly when its sender's boot is the open one and no attempt is open. */
  lemma StartAdmittedIff(m: Manager, s: Session)
    ensures AdmitPacket(m, Some(FilePackets.START), Some(s)).1.Admitted? <==> m.boot == Some(s.boot) && m.current.None?
  {
  }

  /** The attempt that is open for this sender: its boot is the open one, and the session is the attempt's. */
  predicate OpenFor(m: Manager, s: Session, id: nat) {
    m.boot == Some(s.boot) && m.current.Some? && m.current.value.session == s.id && m.current.value.id == id
  }

  /** DATA passes exactly for the sender's open attempt that has not ended, under its id, and changes nothing. */
  lemma DataAdmittedIff(m: Manager, s: Session, id: nat)
    ensures AdmitPacket(m, Some(FilePackets.DATA), Some(s)).1 == Admitted(id) <==> OpenFor(m, s, id) && m.current.value.state == STARTED
    ensures AdmitPacket(m, Some(FilePackets.DATA), Some(s)).0 == m
  {
  }

  /** END passes under the same condition and leaves the attempt draining. */
  lemma EndAdmittedIff(m: Manager, s: Session, id: nat)
    ensures AdmitPacket(m, Some(FilePackets.END), Some(s)).1 == Admitted(id) <==> OpenFor(m, s, id) && m.current.value.state == STARTED
    ensures var (d, verdict) := AdmitPacket(m, Some(FilePackets.END), Some(s));
      if verdict.Admitted? then m.current.Some? && d == m.(current := Some(m.current.value.(state := DRAINING))) else d == m
  {
  }

  /** CANCEL passes for the session's attempt in any state, also after its boot is gone, and leaves it aborting. */
  lemma CancelAdmittedIff(m: Manager, s: Session, id: nat)
    ensures AdmitPacket(m, Some(FilePackets.CANCEL), Some(s)).1 == Admitted(id)
       <==> m.current.Some? && m.current.value.session == s.id && m.current.value.id == id
    ensures var (d, verdict) := AdmitPacket(m, Some(FilePackets.CANCEL), Some(s));
      if verdict.Admitted? then m.current.Some? && d == m.(current := Some(m.current.value.(state := ABORTING))) else d == m
  {
  }

  /** A START that passes opens the next attempt; frames without a file packet always pass, file packets without a session never. */
  lemma OthersAdmitted(m: Manager, s: Session, session: Option<Session>, kind: Kind)
    ensures var (d, verdict) := AdmitPacket(m, Some(FilePackets.START), Some(s));
      if verdict.Admitted? then verdict.epoch == m.nextId && d == m.(current := Some(Attempt(m.nextId, s.id, s.boot, STARTED)), nextId := m.nextId + 1)
      else d == m
    ensures AdmitPacket(m, None, session) == (m, Admitted(0))
    ensures AdmitPacket(m, Some(kind), None) == (m, Rejected)
  {
  }

  /** The event delivers an END or CANCEL copy of the attempt without transport failure, or changes its boot. */
  predicate Ends(l: Downlink, ev: LinkEvent, e: nat) {
    match ev
    case Deliver(fails) => !fails && l.queue != [] && Closes(l.queue[0]) && l.queue[0].epoch == e
    case Open(boot) => l.manager.boot != Some(boot)
    case Close(boot) => l.manager.boot == Some(boot)
    case _ => false
  }

  /** No event of the run ends the attempt. */
  predicate Undisturbed(l: Downlink, events: seq<LinkEvent>, e: nat)
    decreases |events|
  {
    events == [] || (!Ends(l, events[0], e) && Undisturbed(LinkStep(l, events[0]), events[1..], e))
  }

  lemma PacketKeepsOpen(m: Manager, kind: Option<Kind>, session: Option<Session>, e: nat)
    requires e < m.nextId
    ensures var d := AdmitPacket(m, kind, session).0;
      (IsOpen(d, e) <==> IsOpen(m, e)) && d.boot == m.boot && e < d.nextId
  {
  }

  lemma CopiesKeepManager(l: Downlink, fate: Fate, bits: nat, id: nat, epoch: nat, kind: Option<Kind>)
    requires 0 < fate.profile.bitrate
    ensures SendCopies(l, fate, bits, id, epoch, kind).manager == l.manager
  {
    hide TimingOf, DrawBool;
  }

  /** An open attempt is still open after a step exactly when the step does not end it; an ended one never reopens. */
  lemma StepKeepsOpenIff(l: Downlink, ev: LinkEvent, e: nat)
    requires e < l.manager.nextId
    ensures var d := LinkStep(l, ev);
      && e < d.manager.nextId
      && (IsOpen(d.manager, e) <==> IsOpen(l.manager, e) && !Ends(l, ev, e))
  {
    match ev
    case Admit(kind, session, bits, fate) =>
      PacketKeepsOpen(l.manager, kind, session, e);
      if 0 < fate.profile.bitrate {
        var (manager, verdict) := AdmitPacket(l.manager, kind, session);
        hide AdmitPacket, SendCopies;
        if verdict.Admitted? {
          CopiesKeepManager(l.(nextFrame := l.nextFrame + 1, manager := manager), fate, bits, l.nextFrame, verdict.epoch, kind);
        }
      }
    case _ =>
  }

  lemma {:induction false} EndedStaysEnded(l: Downlink, events: seq<LinkEvent>, e: nat)
    requires e < l.manager.nextId && !IsOpen(l.manager, e)
    ensures !IsOpen(LinkRun(l, events).manager, e)
    decreases |events|
  {
    hide LinkStep, Ends;
    if events != [] {
      StepKeepsOpenIff(l, events[0], e);
      EndedStaysEnded(LinkStep(l, events[0]), events[1..], e);
    }
  }

  /**
   An open attempt stays open over a run exactly when no END or CANCEL copy of it is delivered
   without transport failure and its boot is neither replaced nor closed.
   */
  lemma {:induction false} StaysOpenIff(l: Downlink, events: seq<LinkEvent>, e: nat)
    requires e < l.manager.nextId && IsOpen(l.manager, e)
    ensures IsOpen(LinkRun(l, events).manager, e) <==> Undisturbed(l, events, e)
    decreases |events|
  {
    hide LinkStep, Ends;
    if events != [] {
      StepKeepsOpenIff(l, events[0], e);
      if Ends(l, events[0], e) {
        EndedStaysEnded(LinkStep(l, events[0]), events[1..], e);
      } else {
        StaysOpenIff(LinkStep(l, events[0]), events[1..], e);
      }
    }
  }

  /** No END or CANCEL copy of the attempt is waiting. */
  predicate NothingCloses(l: Downlink, e: nat) {
    forall i :: 0 <= i < |l.queue| && Closes(l.queue[i]) ==> l.queue[i].epoch != e
  }

  /** The sender's boot stays and it sends no CANCEL. */
  predicate NoCancelNorBoot(ev: LinkEvent) {
    !ev.Open? && !ev.Close? && (ev.Admit? ==> ev.kind != Some(FilePackets.CANCEL))
  }

  /** After END the queue gets no closing copy of the attempt but by a CANCEL. */
  lemma DrainingStep(l: Downlink, ev: LinkEvent, e: nat)
    requires e < l.manager.nextId && IsOpen(l.manager, e) && l.manager.current.value.state != STARTED
    requires NothingCloses(l, e) && NoCancelNorBoot(ev)
    ensures var d := LinkStep(l, ev);
      && e < d.manager.nextId && IsOpen(d.manager, e) && d.manager.current.value.state != STARTED
      && NothingCloses(d, e) && !Ends(l, ev, e)
  {
    match ev
    case Admit(kind, session, bits, fate) =>
      if 0 < fate.profile.bitrate { RefusedOrForeign(l, kind, session, bits, fate, e); }
    case Deliver(fails) =>
      if l.queue != [] {
        assert NothingCloses(l.(queue := l.queue[1..]), e);
      }
    case _ =>
  }

  /** In a draining attempt only frames that are not file packets pass. */
  lemma RefusedOrForeign(l: Downlink, kind: Option<Kind>, session: Option<Session>, bits: nat, fate: Fate, e: nat)
    requires 0 < fate.profile.bitrate && e < l.manager.nextId
    requires IsOpen(l.manager, e) && l.manager.current.value.state != STARTED
    requires NothingCloses(l, e) && kind != Some(FilePackets.CANCEL)
    ensures var d := AdmitFrame(l, kind, session, bits, fate);
      d.manager == l.manager && NothingCloses(d, e)
  {
    var (manager, verdict) := AdmitPacket(l.manager, kind, session);
    assert manager == l.manager && (verdict.Admitted? ==> kind.None?);
    hide AdmitPacket, TimingOf, DrawBool;
  }

  /**
   An attempt whose END was admitted, with no closing copy waiting, refuses every START, DATA and
   END for as long as its boot stays and no CANCEL is sent.
   */
  lemma {:induction false} DrainingBlocks(l: Downlink, events: seq<LinkEvent>, e: nat, s: Session)
    requires e < l.manager.nextId && IsOpen(l.manager, e) && l.manager.current.value.state != STARTED && NothingCloses(l, e)
    requires forall ev :: ev in events ==> NoCancelNorBoot(ev)
    ensures var m := LinkRun(l, events).manager;
      && IsOpen(m, e)
      && forall k :: k != FilePackets.CANCEL ==> AdmitPacket(m, Some(k), Some(s)) == (m, Rejected)
    decreases |events|
  {
    if events != [] {
      DrainingStep(l, events[0], e);
      hide LinkStep, AdmitPacket, NoCancelNorBoot, NothingCloses;
      DrainingBlocks(LinkStep(l, events[0]), events[1..], e, s);
    }
  }

  /** A link that loses nothing, or everything, and adds neither delay nor copies. */
  function Plain(loss: nat): Profile {
    Profile(0, 0, loss, 0, 0, 0, 0, 0, GIGA)
  }

  function PlainFate(loss: nat): Fate {
    Fate(Plain(loss), (_: Stage) => 0, (_: Stage) => 0)
  }

  /** A file frame on such a link, one bit long. */
  function PlainFrame(kind: Kind, s: Session, loss: nat): LinkEvent {
    Admit(Some(kind), Some(s), 1, PlainFate(loss))
  }

  lemma PlainAdmits(l: Downlink, kind: Kind, s: Session, loss: nat)
    requires loss == 0 || loss == PPM
    requires l.now <= l.available < U64_MAX && l.queue == []
    ensures var (m, verdict) := AdmitPacket(l.manager, Some(kind), Some(s));
      verdict.Admitted? ==>
        var d := LinkStep(l, PlainFrame(kind, s, loss));
        && d.manager == m && d.now == l.now && d.available == l.available + 1
        && d.queue == if loss == PPM then [] else [Scheduled(l.available + 1, l.nextFrame, 0, verdict.epoch, Some(kind))]
  {
    hide AdmitPacket;
    var t := TimingOf(Plain(loss), (_: Stage) => 0, 1, l.now, l.available);
    assert Duration(1, GIGA) == 1;
    assert t == Some(Timing(l.now, l.available, 1, l.available + 1));
    hide TimingOf;
  }

  // ---------------------------------------------------------------- a whole file on a link without loss

  /** A DATA frame of so many bits. */
  function DataFrame(s: Session, bits: nat): LinkEvent {
    Admit(Some(FilePackets.DATA), Some(s), bits, PlainFate(0))
  }

  function DataFrames(s: Session, sizes: seq<nat>): seq<LinkEvent> {
    seq(|sizes|, i requires 0 <= i < |sizes| => DataFrame(s, sizes[i]))
  }

  function Deliveries(n: nat): seq<LinkEvent> {
    seq(n, _ => Deliver(false))
  }

  /** START, any DATA, END, and then as many deliveries. */
  function WholeFile(s: Session, sizes: seq<nat>): seq<LinkEvent> {
    [Open(s.boot), PlainFrame(FilePackets.START, s, 0)] + DataFrames(s, sizes) + [PlainFrame(FilePackets.END, s, 0)]
    + Deliveries(|sizes| + 2)
  }

  function Total(sizes: seq<nat>): nat {
    if sizes == [] then 0 else sizes[0] + Total(sizes[1..])
  }

  /** Kind and attempt of what was delivered, in order. */
  function Seen(copies: seq<Scheduled>): seq<(Option<Kind>, nat)> {
    seq(|copies|, i requires 0 <= i < |copies| => (copies[i].kind, copies[i].epoch))
  }

  lemma SeenConcat(a: seq<Scheduled>, b: seq<Scheduled>)
    ensures Seen(a + b) == Seen(a) + Seen(b)
  {
  }

  lemma {:induction false} RunConcat(l: Downlink, a: seq<LinkEvent>, b: seq<LinkEvent>)
    ensures LinkRun(l, a + b) == LinkRun(LinkRun(l, a), b)
    decreases |a|
  {
    hide LinkStep;
    if a == [] {
      assert a + b == b;
    } else {
      assert (a + b)[1..] == a[1..] + b;
      RunConcat(LinkStep(l, a[0]), a[1..], b);
    }
  }

  /** A frame that the fence admits joins the queue when nothing is lost. */
  lemma LosslessAdmit(l: Downlink, kind: Kind, s: Session, bits: nat)
    requires l.now <= l.available && l.available + bits <= U64_MAX
    ensures var (m, verdict) := AdmitPacket(l.manager, Some(kind), Some(s));
      verdict.Admitted? ==>
        var d := LinkStep(l, Admit(Some(kind), Some(s), bits, PlainFate(0)));
        && d.manager == m && d.now == l.now && d.available == l.available + bits && d.delivered == l.delivered && d.closed == l.closed
        && d.queue == l.queue + [Scheduled(l.available + bits, l.nextFrame, 0, verdict.epoch, Some(kind))]
  {
    hide AdmitPacket;
    AirTimeAtGiga(bits);
    var t := TimingOf(Plain(0), (_: Stage) => 0, bits, l.now, l.available);
    assert t == Some(Timing(l.now, l.available, bits, l.available + bits));
    hide TimingOf;
  }

  lemma AirTimeAtGiga(bits: nat)
    ensures Duration(bits, GIGA) == bits
  {
  }

  /** DATA of a started attempt all joins the queue. */
  lemma {:induction false} DataJoins(l: Downlink, s: Session, sizes: seq<nat>, id: nat)
    requires OpenFor(l.manager, s, id) && l.manager.current.value.state == STARTED
    requires l.now <= l.available && l.available + Total(sizes) <= U64_MAX
    ensures var d := LinkRun(l, DataFrames(s, sizes));
      && d.manager == l.manager && d.now == l.now && d.available == l.available + Total(sizes)
      && d.delivered == l.delivered && d.closed == l.closed
      && Seen(d.queue) == Seen(l.queue) + seq(|sizes|, _ => (Some(FilePackets.DATA), id))
    decreases |sizes|
  {
    if sizes == [] {
      assert DataFrames(s, sizes) == [];
    } else {
      DataAdmittedIff(l.manager, s, id);
      LosslessAdmit(l, FilePackets.DATA, s, sizes[0]);
      var one := LinkStep(l, DataFrame(s, sizes[0]));
      var copy := one.queue[|l.queue|];
      SeenConcat(l.queue, [copy]);
      assert Seen([copy]) == [(Some(FilePackets.DATA), id)];
      assert DataFrames(s, sizes) == [DataFrame(s, sizes[0])] + DataFrames(s, sizes[1..]);
      StepThen(l, DataFrame(s, sizes[0]), DataFrames(s, sizes[1..]));
      hide LinkStep, AdmitPacket;
      DataJoins(one, s, sizes[1..], id);
      assert seq(|sizes|, _ => (Some(FilePackets.DATA), id))
          == [(Some(FilePackets.DATA), id)] + seq(|sizes[1..]|, _ => (Some(FilePackets.DATA), id));
    }
  }

  /** The whole queue is delivered in its order. */
  lemma {:induction false} AllDelivered(l: Downlink)
    ensures var d := LinkRun(l, Deliveries(|l.queue|));
      d.queue == [] && d.delivered == l.delivered + l.queue
    decreases |l.queue|
  {
    if l.queue != [] {
      var one := LinkStep(l, Deliver(false));
      assert Deliveries(|l.queue|) == [Deliver(false)] + Deliveries(|l.queue| - 1);
      StepThen(l, Deliver(false), Deliveries(|l.queue| - 1));
      assert one.delivered + one.queue == l.delivered + l.queue;
      AllDelivered(one);
    }
  }

  /** What a file of n DATA packets looks like on the link, under its attempt. */
  function FileSeen(n: nat): seq<(Option<Kind>, nat)> {
    [(Some(FilePackets.START), 1)] + seq(n, _ => (Some(FilePackets.DATA), 1)) + [(Some(FilePackets.END), 1)]
  }

  /** The boot is open and START is queued under attempt 1. */
  lemma FileBegins(s: Session)
    ensures var l := LinkRun(IDLE, [Open(s.boot), PlainFrame(FilePackets.START, s, 0)]);
      && l.now == 0 && l.available == 1 && l.delivered == [] && Seen(l.queue) == [(Some(FilePackets.START), 1)]
      && l.manager == Manager(Some(Attempt(1, s.id, s.boot, STARTED)), 2, Some(s.boot))
  {
    var ready := LinkStep(IDLE, Open(s.boot));
    LosslessAdmit(ready, FilePackets.START, s, 1);
    TwoSteps(IDLE, Open(s.boot), PlainFrame(FilePackets.START, s, 0));
    hide AdmitFrame;
  }

  lemma AdmittedFile(s: Session, sizes: seq<nat>)
    requires Total(sizes) + 2 <= U64_MAX
    ensures var l := LinkRun(IDLE, [Open(s.boot), PlainFrame(FilePackets.START, s, 0)] + DataFrames(s, sizes) + [PlainFrame(FilePackets.END, s, 0)]);
      && l.delivered == [] && l.manager.current == Some(Attempt(1, s.id, s.boot, DRAINING)) && l.manager.nextId == 2
      && Seen(l.queue) == FileSeen(|sizes|)
  {
    var first, frames, last := [Open(s.boot), PlainFrame(FilePackets.START, s, 0)], DataFrames(s, sizes), [PlainFrame(FilePackets.END, s, 0)];
    FileBegins(s);
    hide LinkStep, AdmitPacket, LinkRun, Seen, DataFrames, PlainFrame;
    var started := LinkRun(IDLE, first);
    DataJoins(started, s, sizes, 1);
    EndJoins(LinkRun(started, frames), s, 1);
    RunConcat(IDLE, first, frames);
    RunConcat(IDLE, first + frames, last);
  }

  lemma EndJoins(l: Downlink, s: Session, id: nat)
    requires OpenFor(l.manager, s, id) && l.manager.current.value.state == STARTED
    requires l.now <= l.available < U64_MAX
    ensures var d := LinkRun(l, [PlainFrame(FilePackets.END, s, 0)]);
      && d.delivered == l.delivered && d.manager == l.manager.(current := Some(l.manager.current.value.(state := DRAINING)))
      && Seen(d.queue) == Seen(l.queue) + [(Some(FilePackets.END), id)]
  {
    EndAdmittedIff(l.manager, s, id);
    LosslessAdmit(l, FilePackets.END, s, 1);
    var one := LinkStep(l, PlainFrame(FilePackets.END, s, 0));
    assert [PlainFrame(FilePackets.END, s, 0)] == [PlainFrame(FilePackets.END, s, 0)] + [];
    StepThen(l, PlainFrame(FilePackets.END, s, 0), []);
    SeenConcat(l.queue, [one.queue[|l.queue|]]);
    assert Seen([one.queue[|l.queue|]]) == [(Some(FilePackets.END), id)];
    hide LinkStep, AdmitPacket;
  }

  lemma SeenSays(copies: seq<Scheduled>, n: nat)
    requires Seen(copies) == FileSeen(n)
    ensures |copies| == n + 2 && Closes(copies[n + 1]) && copies[n + 1].epoch == 1
    ensures forall i :: 0 <= i < n + 1 ==> !Closes(copies[i])
  {
    assert |Seen(copies)| == n + 2;
    forall i | 0 <= i < n + 2 ensures (copies[i].kind, copies[i].epoch) == FileSeen(n)[i] {
      assert Seen(copies)[i] == (copies[i].kind, copies[i].epoch);
    }
  }

  /** On a link that loses nothing a whole file, however cut, is delivered in order under one attempt, which is then closed. */
  lemma WholeFileArrives(s: Session, sizes: seq<nat>)
    requires Total(sizes) + 2 <= U64_MAX
    ensures var l := LinkRun(IDLE, WholeFile(s, sizes));
      && Seen(l.delivered) == FileSeen(|sizes|)
      && l.queue == [] && l.manager.current.None?
  {
    AdmittedFile(s, sizes);
    var events := [Open(s.boot), PlainFrame(FilePackets.START, s, 0)] + DataFrames(s, sizes) + [PlainFrame(FilePackets.END, s, 0)];
    var l := LinkRun(IDLE, events);
    SeenSays(l.queue, |sizes|);
    hide LinkRun, LinkStep, Seen, FileSeen, DataFrames, PlainFrame, Closes, Deliveries;
    RunConcat(IDLE, events, Deliveries(|sizes| + 2));
    AllDelivered(l);
    assert l.delivered + l.queue == l.queue;
    EndClosesAttempt(l, |sizes| + 1);
  }

  /** The closing copy at the end of the queue closes its attempt when it is delivered. */
  lemma {:induction false} EndClosesAttempt(l: Downlink, n: nat)
    requires |l.queue| == n + 1 && Closes(l.queue[n]) && l.manager.current.Some? && l.manager.current.value.id == l.queue[n].epoch
    requires l.manager.current.value.id < l.manager.nextId
    requires forall i :: 0 <= i < n ==> !Closes(l.queue[i])
    ensures LinkRun(l, Deliveries(n + 1)).manager.current.None?
    decreases n
  {
    var one := LinkStep(l, Deliver(false));
    assert Deliveries(n + 1) == [Deliver(false)] + Deliveries(n);
    StepThen(l, Deliver(false), Deliveries(n));
    if 0 < n {
      EndClosesAttempt(one, n - 1);
    } else {
      assert Deliveries(0) == [];
    }
  }

  /** START delivered, END admitted and lost. */
  function LostEnd(s: Session): seq<LinkEvent> {
    [Open(s.boot), PlainFrame(FilePackets.START, s, 0), Deliver(false), PlainFrame(FilePackets.END, s, PPM)]
  }

  /** The way out that the link offers: a CANCEL that is delivered. */
  function ThenCancel(s: Session): seq<LinkEvent> {
    [PlainFrame(FilePackets.CANCEL, s, 0), Deliver(false)]
  }

  lemma StepThen(l: Downlink, ev: LinkEvent, rest: seq<LinkEvent>)
    ensures LinkRun(l, [ev] + rest) == LinkRun(LinkStep(l, ev), rest)
  {
    assert ([ev] + rest)[1..] == rest;
  }

  lemma TwoSteps(l: Downlink, a: LinkEvent, b: LinkEvent)
    ensures LinkRun(l, [a, b]) == LinkStep(LinkStep(l, a), b)
  {
    hide LinkStep;
    assert [a, b] == [a] + [b] && [b] == [b] + [];
    StepThen(l, a, [b]);
    StepThen(LinkStep(l, a), b, []);
  }

  lemma FourSteps(l: Downlink, a: LinkEvent, b: LinkEvent, c: LinkEvent, d: LinkEvent)
    ensures LinkRun(l, [a, b, c, d]) == LinkStep(LinkStep(LinkStep(LinkStep(l, a), b), c), d)
  {
    hide LinkStep;
    assert [a, b, c, d] == [a] + ([b] + [c, d]);
    StepThen(l, a, [b] + [c, d]);
    StepThen(LinkStep(l, a), b, [c, d]);
    TwoSteps(LinkStep(LinkStep(l, a), b), c, d);
  }

  /** A run from the idle link that loses END leaves the attempt draining with nothing to close it. */
  lemma LostEndLeavesDraining(s: Session)
    ensures forall ev :: ev in LostEnd(s) ==> Sane(ev)
    ensures var l := LinkRun(IDLE, LostEnd(s));
      && l.manager == Manager(Some(Attempt(1, s.id, s.boot, DRAINING)), 2, Some(s.boot))
      && l.queue == [] && l.now == 1 && l.available == 2
  {
    PlainIsSane();
    var ready := LinkStep(IDLE, Open(s.boot));
    PlainAdmits(ready, FilePackets.START, s, 0);
    var started := LinkStep(ready, PlainFrame(FilePackets.START, s, 0));
    hide AdmitFrame;
    var delivered := LinkStep(started, Deliver(false));
    PlainAdmits(delivered, FilePackets.END, s, PPM);
    FourSteps(IDLE, Open(s.boot), PlainFrame(FilePackets.START, s, 0), Deliver(false), PlainFrame(FilePackets.END, s, PPM));
  }

  lemma PlainIsSane()
    ensures Valid(Plain(0)) && Valid(Plain(PPM)) && Bits64((_: Stage) => 0)
  {
  }

  /**
   After a lost END the link takes no START until the sender cancels or its boot changes; one
   delivered CANCEL of the same session is enough, and START is then admitted again.
   */
  lemma LostEndBlocksStart(s: Session, events: seq<LinkEvent>)
    requires forall ev :: ev in events ==> NoCancelNorBoot(ev)
    ensures AdmitPacket(LinkRun(LinkRun(IDLE, LostEnd(s)), events).manager, Some(FilePackets.START), Some(s)).1.Rejected?
    ensures AdmitPacket(LinkRun(LinkRun(IDLE, LostEnd(s)), ThenCancel(s)).manager, Some(FilePackets.START), Some(s)).1.Admitted?
  {
    LostEndLeavesDraining(s);
    var l := LinkRun(IDLE, LostEnd(s));
    DrainingBlocks(l, events, 1, s);
    PlainAdmits(l, FilePackets.CANCEL, s, 0);
    TwoSteps(l, PlainFrame(FilePackets.CANCEL, s, 0), Deliver(false));
    hide AdmitFrame, LinkRun, LostEnd;
  }

  // ---------------------------------------------------------------- in place

  /** The single file attempt a sender boot may have open. */
  class FileEpochManager {
    var currentAttempt: Option<Attempt>
    var nextAttemptId: nat
    var activeSenderBoot: Option<nat>

    function Value(): Manager
      reads this
    {
      Manager(currentAttempt, nextAttemptId, activeSenderBoot)
    }

    constructor ()
      ensures Value() == Manager(None, 1, None)
    {
      currentAttempt, nextAttemptId, activeSenderBoot := None, 1, None;
    }

    method StartAttempt(s: Session) returns (attempt: Option<nat>)
      modifies this
      ensures (Value(), VerdictOf(attempt)) == AdmitStart(old(Value()), s)
    {
      if activeSenderBoot.None? || activeSenderBoot.value != s.boot {
        return None;
      }
      if currentAttempt.Some? {
        return None;
      }
      attempt := Some(nextAttemptId);
      currentAttempt := Some(Attempt(nextAttemptId, s.id, s.boot, STARTED));
      nextAttemptId := nextAttemptId + 1;
    }

    method DataOf(boot: nat) returns (attempt: Option<nat>)
      ensures attempt == if activeSenderBoot == Some(boot) && currentAttempt.Some? && currentAttempt.value.state == STARTED
                         then Some(currentAttempt.value.id) else None
    {
      if activeSenderBoot != Some(boot) || currentAttempt.None? || currentAttempt.value.state != STARTED {
        return None;
      }
      attempt := Some(currentAttempt.value.id);
    }

    /** END stops further DATA and END packets of the attempt. */
    method EndOf(boot: nat) returns (attempt: Option<nat>)
      modifies `currentAttempt
      ensures attempt.Some? <==> activeSenderBoot == Some(boot) && old(currentAttempt).Some? && old(currentAttempt).value.state == STARTED
      ensures attempt.Some? ==> attempt.value == old(currentAttempt).value.id && currentAttempt == Some(old(currentAttempt).value.(state := DRAINING))
      ensures attempt.None? ==> currentAttempt == old(currentAttempt)
    {
      if activeSenderBoot != Some(boot) || currentAttempt.None? || currentAttempt.value.state != STARTED {
        return None;
      }
      attempt := Some(currentAttempt.value.id);
      currentAttempt := Some(currentAttempt.value.(state := DRAINING));
    }

    method AbortAttempt(id: nat) returns (found: bool)
      modifies `currentAttempt
      ensures Value() == AbortEpoch(old(Value()), id)
      ensures found <==> old(currentAttempt).Some? && old(currentAttempt).value.id == id
    {
      if currentAttempt.None? || currentAttempt.value.id != id {
        return false;
      }
      currentAttempt := Some(currentAttempt.value.(state := ABORTING));
      found := true;
    }

    method CompleteAttempt(id: nat) returns (found: bool)
      modifies `currentAttempt
      ensures Value() == Complete(old(Value()), id)
      ensures found <==> old(currentAttempt).Some? && old(currentAttempt).value.id == id
    {
      if currentAttempt.None? || currentAttempt.value.id != id {
        return false;
      }
      currentAttempt := None;
      found := true;
    }

    method OpenBootSession(boot: nat)
      modifies `currentAttempt, `activeSenderBoot
      ensures Value() == OpenSession(old(Value()), boot)
    {
      if activeSenderBoot != Some(boot) {
        activeSenderBoot, currentAttempt := Some(boot), None;
      }
    }

    method CloseBootSession(boot: nat)
      modifies `currentAttempt, `activeSenderBoot
      ensures Value() == CloseSession(old(Value()), boot)
    {
      if activeSenderBoot == Some(boot) {
        activeSenderBoot, currentAttempt := None, None;
      }
    }
  }

  function VerdictOf(attempt: Option<nat>): Verdict {
    if attempt.Some? then Admitted(attempt.value) else Rejected
  }

  class LinkSimulator {
    var now: nat
    var available: nat
    var nextFrame: nat
    const epochs: FileEpochManager
    var queue: seq<Scheduled>
    var delivered: seq<Scheduled>
    var closed: set<nat>
    ghost var sent: seq<Transmission>

    ghost function Value(): Downlink
      reads this, epochs
    {
      Downlink(now, available, nextFrame, epochs.Value(), queue, delivered, closed, sent)
    }

    ghost predicate Good()
      reads this, epochs
    {
      LinkInv(Value())
    }

    constructor ()
      ensures Good() && Value() == IDLE && fresh(epochs)
    {
      now, available, nextFrame, queue, delivered, closed := 0, 0, 0, [], [], {};
      sent := [];
      epochs := new FileEpochManager();
    }

    /** Serializes one copy; false when a time does not fit 64 bits or the corrupt bits do not fit the frame. */
    method Transmit(p: Profile, d: Draws, bits: nat, frameId: nat, copy: nat, epoch: nat, kind: Option<Kind>) returns (fits: bool)
      requires 0 < p.bitrate
      modifies `available, `queue, `sent
      ensures fits <==> SendCopy(old(Value()), p, d, bits, frameId, copy, epoch, kind).Some?
      ensures Value() == if fits then SendCopy(old(Value()), p, d, bits, frameId, copy, epoch, kind).value else old(Value())
    {
      hide Jitter, Slots, Duration, DrawBool;
      if DrawBool(p.corruptPpm, d(CORRUPT_DECISION)) && p.corruptBits > 0 && p.corruptBits > bits {
        return false;
      }
      var due := now + p.baseLatency + Jitter(p, d(JITTER)) + Slots(p, d(REORDER)) * p.slot;
      if due < 0 || due > U64_MAX {
        return false;
      }
      var start := if due > available then due else available;
      var release := start + Duration(bits, p.bitrate);
      if release > U64_MAX {
        return false;
      }
      sent := sent + [Transmission(bits, p.bitrate, now, start, release)];
      available := release;
      if !DrawBool(p.lossPpm, d(LOSS)) {
        queue := queue + [Scheduled(release, frameId, copy, epoch, kind)];
      }
      fits := true;
    }

    /** Routes a file packet of the downlink to the epoch manager; other frames pass. */
    method AdmitFileEpoch(kind: Option<Kind>, session: Option<Session>) returns (verdict: Verdict)
      modifies epochs
      ensures (epochs.Value(), verdict) == AdmitPacket(old(epochs.Value()), kind, session)
    {
      if kind.None? {
        return Admitted(0);
      }
      if session.None? {
        return Rejected;
      }
      var attempt: Option<nat> := None;
      if kind.value == FilePackets.START {
        attempt := epochs.StartAttempt(session.value);
        return VerdictOf(attempt);
      }
      if epochs.currentAttempt.None? || epochs.currentAttempt.value.session != session.value.id {
        return Rejected;
      }
      if kind.value == FilePackets.DATA {
        attempt := epochs.DataOf(session.value.boot);
      } else if kind.value == FilePackets.END {
        attempt := epochs.EndOf(session.value.boot);
      } else {
        attempt := Some(epochs.currentAttempt.value.id);
        var found := epochs.AbortAttempt(epochs.currentAttempt.value.id);
      }
      verdict := VerdictOf(attempt);
    }

    method AdmitOne(kind: Option<Kind>, session: Option<Session>, bits: nat, fate: Fate)
      requires 0 < fate.profile.bitrate
      modifies `available, `queue, `sent, `nextFrame, epochs
      ensures Value() == AdmitFrame(old(Value()), kind, session, bits, fate)
    {
      hide SendCopy, AdmitPacket, DrawBool;
      var id := nextFrame;
      nextFrame := nextFrame + 1;
      var verdict := AdmitFileEpoch(kind, session);
      if verdict.Rejected? {
        return;
      }
      var fits := Transmit(fate.profile, fate.first, bits, id, 0, verdict.epoch, kind);
      if !fits || DrawBool(fate.profile.lossPpm, fate.first(LOSS)) || !DrawBool(fate.profile.duplicatePpm, fate.first(DUPLICATE)) {
        return;
      }
      fits := Transmit(fate.profile, fate.second, bits, id, 1, verdict.epoch, kind);
    }

    method RunNext(fails: bool) returns (any: bool)
      requires Good()
      modifies `now, `queue, `delivered, `closed, epochs
      ensures any <==> old(queue) != []
      ensures Value() == DeliverNext(old(Value()), fails)
    {
      if queue == [] {
        return false;
      }
      var i := Earliest(queue);
      EarliestIsOldest(Value(), i);
      var s := queue[i];
      now, queue, delivered := s.release, queue[..i] + queue[i + 1..], delivered + [s];
      if Closes(s) && !fails && epochs.currentAttempt.Some? && epochs.currentAttempt.value.id == s.epoch {
        var found := epochs.CompleteAttempt(s.epoch);
        closed := closed + {s.epoch};
      }
      any := true;
    }
  }

  /** An event of the queue that no other one precedes, whatever order the queue keeps them in. */
  method Earliest(queue: seq<Scheduled>) returns (best: nat)
    requires queue != []
    ensures best < |queue| && forall j :: 0 <= j < |queue| ==> !Precedes(queue[j], queue[best])
  {
    best := 0;
    for i := 1 to |queue|
      invariant best < |queue|
      invariant forall j :: 0 <= j < i ==> !Precedes(queue[j], queue[best])
    {
      if Precedes(queue[i], queue[best]) {
        best := i;
      }
    }
  }
}
