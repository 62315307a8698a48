/**
 Counter checks on received frames. A frame carries counts modulo 256 (frames) and 16384
 (packets); it is accepted when every count is ahead of the last accepted one by less than
 half its modulus (sections 4.1.2.5 and 4.1.2.6 of CCSDS 132.0-B-2 define the frame counts).
 */
module TmCounters {
  import opened Bytes
  import opened TmAllocator

  datatype Relation = REL_BASELINE | REL_IN_ORDER | REL_ROLLOVER | REL_GAP | REL_DUPLICATE | REL_STALE

  /** Distance from previous forward to current, both below the modulus. */
  function Forward(previous: nat, current: nat, modulus: nat): int {
    if current >= previous then current - previous else current - previous + modulus
  }

  function Advance(previous: nat, current: nat, modulus: nat): (Relation, int) {
    var delta := Forward(previous, current, modulus);
    if current == previous then (REL_DUPLICATE, 0)
    else if delta == 1 then (if previous == modulus - 1 && current == 0 then REL_ROLLOVER else REL_IN_ORDER, 0)
    else if 1 < delta < modulus / 2 then (REL_GAP, delta - 1)
    else (REL_STALE, 0)
  }

  predicate Ahead(r: Relation) {
    r == REL_IN_ORDER || r == REL_ROLLOVER || r == REL_GAP
  }

  /** A count as it appears in a frame. */
  function Wrapped(n: nat, modulus: nat): nat
    requires 1 <= modulus
  {
    n % modulus
  }

  /** The frame is less than half a modulus ahead of the last accepted one, or at most half behind. */
  predicate InWindow(last: nat, now: nat, modulus: nat) {
    -(modulus / 2) <= now - last < modulus / 2
  }

  predicate ModulusInUse(modulus: nat) {
    modulus == FRAME_MODULUS || modulus == PACKET_MODULUS
  }

  /** Within the window the wrapped counts tell ahead from not ahead, and count what is missing. */
  lemma AdvanceIsTrue(last: nat, now: nat, modulus: nat)
    requires ModulusInUse(modulus) && InWindow(last, now, modulus)
    ensures var (relation, gap) := Advance(Wrapped(last, modulus), Wrapped(now, modulus), modulus);
      && (Ahead(relation) <==> now > last)
      && (relation == REL_DUPLICATE <==> now == last)
      && (now > last ==> gap == now - last - 1)
      && (relation == REL_ROLLOVER <==> now == last + 1 && Wrapped(now, modulus) == 0)
  {
    if modulus == FRAME_MODULUS {
      ForwardIsDistance256(last, now);
    } else {
      ForwardIsDistance16384(last, now);
    }
  }

  lemma ForwardIsDistance256(last: nat, now: nat)
    requires InWindow(last, now, 256)
    ensures Forward(last % 256, now % 256, 256) == if now >= last then now - last else now - last + 256
    ensures now % 256 == last % 256 <==> now == last
  {
  }

  lemma ForwardIsDistance16384(last: nat, now: nat)
    requires InWindow(last, now, 16384)
    ensures Forward(last % 16384, now % 16384, 16384) == if now >= last then now - last else now - last + 16384
    ensures now % 16384 == last % 16384 <==> now == last
  {
  }

  // ---------------------------------------------------------------- the ledger

  datatype Frame = Frame(
    source: nat, run: nat, generation: nat, session: nat, frameId: nat, copy: nat, boot: nat, vcid: nat, apid: nat,
    master: nat, virtual: nat, packet: nat, file: Option<FileMark>, sha: int)

  /** Which file epoch a file packet belongs to, and its sequence index. */
  datatype FileMark = FileMark(scope: nat, sequence: nat)

  datatype Status =
    | BASELINE | IN_ORDER | ROLLOVER | GAP
    | DUPLICATE | STALE_GENERATION | STALE_SESSION | STALE_COUNTER | COUNTER_CONFLICT

  predicate Accepted(s: Status) {
    s == BASELINE || s == IN_ORDER || s == ROLLOVER || s == GAP
  }

  datatype Observation = Observation(status: Status, masterGap: int, virtualGap: int, packetGap: int, fileGap: int)

  datatype CopyKey = CopyKey(source: nat, run: nat, frameId: nat, copy: nat)

  datatype Copy = Copy(sha: int, observation: Observation)

  datatype Link = Link(generation: nat, session: nat)

  datatype ChannelKey = ChannelKey(source: nat, generation: nat, session: nat, boot: nat, vcid: nat)

  datatype Channel = Channel(master: nat, virtual: nat, masterEpoch: nat, virtualEpoch: nat)

  datatype PacketKey = PacketKey(channel: ChannelKey, apid: nat)

  datatype FileKey = FileKey(packet: PacketKey, scope: nat)

  datatype PacketState = PacketState(packet: nat, epoch: nat)

  datatype Ledger = Ledger(
    copies: map<CopyKey, Copy>, active: map<nat, Link>, channels: map<ChannelKey, Channel>, packets: map<PacketKey, PacketState>,
    files: map<FileKey, nat>)

  function CopyOf(f: Frame): CopyKey {
    CopyKey(f.source, f.run, f.frameId, f.copy)
  }

  function ChannelOf(f: Frame): ChannelKey {
    ChannelKey(f.source, f.generation, f.session, f.boot, f.vcid)
  }

  function PacketOf(f: Frame): PacketKey {
    PacketKey(ChannelOf(f), f.apid)
  }

  function Refusal(s: Status): Observation {
    Observation(s, 0, 0, 0, 0)
  }

  /** What the last accepted counts say about a frame. */
  datatype Relations = Relations(master: (Relation, int), virtual: (Relation, int), packet: (Relation, int))

  function RelationsOf(l: Ledger, f: Frame): Relations {
    var c, p := ChannelOf(f), PacketOf(f);
    Relations(
      if c in l.channels then Advance(l.channels[c].master, f.master, FRAME_MODULUS) else (REL_BASELINE, 0),
      if c in l.channels then Advance(l.channels[c].virtual, f.virtual, FRAME_MODULUS) else (REL_BASELINE, 0),
      if p in l.packets then Advance(l.packets[p].packet, f.packet, PACKET_MODULUS) else (REL_BASELINE, 0))
  }

  predicate AnyIs(r: Relations, want: Relation) {
    r.master.0 == want || r.virtual.0 == want || r.packet.0 == want
  }

  predicate AllAre(r: Relations, want: Relation) {
    r.master.0 == want && r.virtual.0 == want && r.packet.0 == want
  }

  function StatusOf(r: Relations): Status {
    if AllAre(r, REL_DUPLICATE) then DUPLICATE
    else if AnyIs(r, REL_STALE) || AnyIs(r, REL_DUPLICATE) then STALE_COUNTER
    else if AnyIs(r, REL_GAP) then GAP
    else if AnyIs(r, REL_ROLLOVER) then ROLLOVER
    else if AllAre(r, REL_BASELINE) then BASELINE
    else IN_ORDER
  }

  function Bumped(epoch: nat, r: Relation): nat {
    if r == REL_ROLLOVER then epoch + 1 else epoch
  }

  function Note(l: Ledger, f: Frame, o: Observation): Ledger {
    l.(copies := l.copies[CopyOf(f) := Copy(f.sha, o)])
  }

  function EpochOf(m: map<ChannelKey, Channel>, c: ChannelKey): Channel {
    if c in m then m[c] else Channel(0, 0, 0, 0)
  }

  function PacketEpoch(m: map<PacketKey, PacketState>, p: PacketKey): nat {
    if p in m then m[p].epoch else 0
  }

  function Store(l: Ledger, f: Frame, r: Relations): Ledger {
    var c, p := ChannelOf(f), PacketOf(f);
    var old_channel := EpochOf(l.channels, c);
    l.(channels := l.channels[c := Channel(f.master, f.virtual, Bumped(old_channel.masterEpoch, r.master.0),
                                           Bumped(old_channel.virtualEpoch, r.virtual.0))],
       packets := l.packets[p := PacketState(f.packet, Bumped(PacketEpoch(l.packets, p), r.packet.0))],
       files := FilesAfter(l.files, f))
  }

  function FileOf(f: Frame, mark: FileMark): FileKey {
    FileKey(PacketOf(f), mark.scope)
  }

  /** File packets may come out of order: only the highest sequence index is kept. */
  function FilesAfter(files: map<FileKey, nat>, f: Frame): map<FileKey, nat> {
    match f.file
    case None => files
    case Some(mark) =>
      var k := FileOf(f, mark);
      if k in files && mark.sequence <= files[k] then files else files[k := mark.sequence]
  }

  function FileGap(files: map<FileKey, nat>, f: Frame): int {
    match f.file
    case None => 0
    case Some(mark) =>
      var k := FileOf(f, mark);
      if k in files && files[k] < mark.sequence then mark.sequence - files[k] - 1 else 0
  }

  predicate EpochsLeft(l: Ledger, f: Frame, r: Relations) {
    && Bumped(EpochOf(l.channels, ChannelOf(f)).masterEpoch, r.master.0) <= U32_MAX
    && Bumped(EpochOf(l.channels, ChannelOf(f)).virtualEpoch, r.virtual.0) <= U32_MAX
    && Bumped(PacketEpoch(l.packets, PacketOf(f)), r.packet.0) <= U32_MAX
  }

  /** The frame's link against the newest link seen from its source. */
  function LinkStatus(l: Ledger, f: Frame): Option<Status> {
    if f.source !in l.active then None
    else
      var a := l.active[f.source];
      if f.generation < a.generation then Some(STALE_GENERATION)
      else if f.generation == a.generation && f.session != a.session then Some(STALE_SESSION)
      else None
  }

  /** One received frame; an exhausted epoch refuses the whole transaction. */
  function Observe(l: Ledger, f: Frame): Result<(Ledger, Observation), ()> {
    if CopyOf(f) in l.copies then
      Ok((l, Refusal(if l.copies[CopyOf(f)].sha != f.sha then COUNTER_CONFLICT else DUPLICATE)))
    else match LinkStatus(l, f)
      case Some(s) => Ok((Note(l, f, Refusal(s)), Refusal(s)))
      case None =>
        var linked := l.(active := l.active[f.source := Link(f.generation, f.session)]);
        var r := RelationsOf(linked, f);
        var status := StatusOf(r);
        if !Accepted(status) then Ok((Note(linked, f, Refusal(status)), Refusal(status)))
        else if !EpochsLeft(linked, f, r) then Err(())
        else
          var o := Observation(status, r.master.1, r.virtual.1, r.packet.1, FileGap(linked.files, f));
          Ok((Note(Store(linked, f, r), f, o), o))
  }

  /** The ledger after a frame; a refused transaction changes nothing. */
  function After(l: Ledger, f: Frame): Ledger {
    match Observe(l, f) case Ok((next, _)) => next case Err(_) => l
  }

  function Outcome(l: Ledger, f: Frame): Option<Observation> {
    match Observe(l, f) case Ok((_, o)) => Some(o) case Err(_) => None
  }

  predicate IsAccepted(l: Ledger, f: Frame) {
    Outcome(l, f).Some? && Accepted(Outcome(l, f).value.status)
  }

  // ---------------------------------------------------------------- copies and links

  /** The newest link of a source is the same one or a newer one. */
  predicate NotOlder(l: Ledger, d: Ledger, s: nat)
    requires s in l.active
  {
    && s in d.active && l.active[s].generation <= d.active[s].generation
    && (l.active[s].generation == d.active[s].generation ==> l.active[s] == d.active[s])
  }

  /** Copies once noted stay noted, and the newest generation never goes back. */
  lemma ObserveRemembers(l: Ledger, f: Frame)
    ensures forall k :: k in l.copies ==> k in After(l, f).copies && After(l, f).copies[k] == l.copies[k]
    ensures IsAccepted(l, f) ==> CopyOf(f) in After(l, f).copies
    ensures IsAccepted(l, f) ==> f.source in After(l, f).active && After(l, f).active[f.source] == Link(f.generation, f.session)
    ensures forall s :: s in l.active ==> NotOlder(l, After(l, f), s)
  {
    hide RelationsOf, StatusOf, EpochsLeft;
  }

  function AfterAll(l: Ledger, fs: seq<Frame>): Ledger
    decreases |fs|
  {
    if fs == [] then l else AfterAll(After(l, fs[0]), fs[1..])
  }

  lemma {:induction false} RunRemembers(l: Ledger, fs: seq<Frame>)
    ensures var d := AfterAll(l, fs);
      && (forall k :: k in l.copies ==> k in d.copies)
      && (forall s :: s in l.active ==> NotOlder(l, d, s))
    decreases |fs|
  {
    if fs != [] {
      ObserveRemembers(l, fs[0]);
      hide After;
      RunRemembers(After(l, fs[0]), fs[1..]);
    }
  }

  /** No copy of a frame is accepted twice, whatever arrives in between. */
  lemma NoCopyAcceptedTwice(l: Ledger, f: Frame, between: seq<Frame>, again: Frame)
    requires IsAccepted(l, f) && CopyOf(again) == CopyOf(f)
    ensures !IsAccepted(AfterAll(After(l, f), between), again)
  {
    ObserveRemembers(l, f);
    RunRemembers(After(l, f), between);
    hide RelationsOf, StatusOf, EpochsLeft, LinkStatus;
  }

  /** After a frame of one link, frames of older links of that source are never accepted. */
  lemma OldLinksAreRefused(l: Ledger, f: Frame, between: seq<Frame>, older: Frame)
    requires IsAccepted(l, f) && older.source == f.source
    requires older.generation < f.generation || (older.generation == f.generation && older.session != f.session)
    ensures !IsAccepted(AfterAll(After(l, f), between), older)
  {
    ObserveRemembers(l, f);
    RunRemembers(After(l, f), between);
    hide RelationsOf, StatusOf, EpochsLeft, After, AfterAll;
  }

  /** A frame copy that was noted is never looked at again: it is a duplicate, or a conflict if its bytes differ. */
  lemma NotedCopyOutcome(l: Ledger, f: Frame)
    requires CopyOf(f) in l.copies
    ensures After(l, f) == l
    ensures Outcome(l, f) == Some(Observation(if l.copies[CopyOf(f)].sha == f.sha then DUPLICATE else COUNTER_CONFLICT, 0, 0, 0, 0))
  {
  }

  /** The frame's link is older than the newest link of its source. */
  predicate OlderGeneration(l: Ledger, f: Frame) {
    f.source in l.active && f.generation < l.active[f.source].generation
  }

  predicate OtherSession(l: Ledger, f: Frame) {
    f.source in l.active && f.generation == l.active[f.source].generation && f.session != l.active[f.source].session
  }

  /** A new frame is refused for its link exactly on an older generation, or on another session of the newest one. */
  lemma LinkRefusedIff(l: Ledger, f: Frame)
    requires CopyOf(f) !in l.copies
    ensures Outcome(l, f) == Some(Refusal(STALE_GENERATION)) <==> OlderGeneration(l, f)
    ensures Outcome(l, f) == Some(Refusal(STALE_SESSION)) <==> OtherSession(l, f)
    ensures LinkStatus(l, f).None? <==> !OlderGeneration(l, f) && !OtherSession(l, f)
    ensures OlderGeneration(l, f) || OtherSession(l, f) ==> After(l, f).active == l.active
    ensures !OlderGeneration(l, f) && !OtherSession(l, f) && Outcome(l, f).Some? ==>
              After(l, f).active == l.active[f.source := Link(f.generation, f.session)]
  {
    hide RelationsOf, EpochsLeft;
  }

  /** Every frame that is not refused for want of epochs is noted with its bytes and what was observed. */
  lemma FramesAreNoted(l: Ledger, f: Frame)
    requires CopyOf(f) !in l.copies
    ensures Outcome(l, f).Some? ==> After(l, f).copies == l.copies[CopyOf(f) := Copy(f.sha, Outcome(l, f).value)]
    ensures Outcome(l, f).None? ==> After(l, f) == l
  {
    hide RelationsOf, StatusOf, EpochsLeft, LinkStatus;
  }

  // ---------------------------------------------------------------- file packets

  /** What a frame adds to the count of one file: the step of its highest index, gaps included. */
  function FileStep(l: Ledger, f: Frame, k: FileKey): int {
    if IsAccepted(l, f) && f.file.Some? && FileOf(f, f.file.value) == k && k in l.files && l.files[k] < f.file.value.sequence
    then 1 + Outcome(l, f).value.fileGap else 0
  }

  function FileSteps(l: Ledger, fs: seq<Frame>, k: FileKey): int
    decreases |fs|
  {
    if fs == [] then 0 else FileStep(l, fs[0], k) + FileSteps(After(l, fs[0]), fs[1..], k)
  }

  lemma FileStepIs(l: Ledger, f: Frame, k: FileKey)
    requires k in l.files
    ensures k in After(l, f).files && After(l, f).files[k] == l.files[k] + FileStep(l, f, k) && 0 <= FileStep(l, f, k)
    ensures IsAccepted(l, f) && f.file.Some? && FileOf(f, f.file.value) == k ==> f.file.value.sequence <= After(l, f).files[k]
  {
    hide RelationsOf, StatusOf, EpochsLeft;
  }

  /**
   Over any run the highest sequence index of a file moves by exactly the reported file gaps plus
   one for each frame that moved it, and it never goes back.
   */
  lemma {:induction false} FileGapsAddUp(l: Ledger, fs: seq<Frame>, k: FileKey)
    requires k in l.files
    ensures k in AfterAll(l, fs).files && AfterAll(l, fs).files[k] == l.files[k] + FileSteps(l, fs, k)
    ensures l.files[k] <= AfterAll(l, fs).files[k]
    decreases |fs|
  {
    if fs != [] {
      FileStepIs(l, fs[0], k);
      hide After, FileStep;
      FileGapsAddUp(After(l, fs[0]), fs[1..], k);
    }
  }

  // ---------------------------------------------------------------- true counts

  /** A frame together with the unending counts its sender drew for it. */
  datatype Sent = Sent(frame: Frame, master: nat, virtual: nat, packet: nat)

  predicate Genuine(t: Sent) {
    && t.frame.master == Wrapped(t.master, FRAME_MODULUS)
    && t.frame.virtual == Wrapped(t.virtual, FRAME_MODULUS)
    && t.frame.packet == Wrapped(t.packet, PACKET_MODULUS)
  }

  /** Two frames of one channel: the sender drew all counts of the one before those of the other. */
  predicate DrawnInOrder(a: Sent, b: Sent) {
    ChannelOf(a.frame) == ChannelOf(b.frame) ==>
      && (a.master < b.master <==> a.virtual < b.virtual)
      && (a.frame.apid == b.frame.apid ==> (a.master < b.master <==> a.packet < b.packet))
  }

  /** The last accepted frames, the first one of each channel, and the frames accounted for since. */
  datatype Truth = Truth(last: map<ChannelKey, Sent>, lastOf: map<PacketKey, Sent>,
                         first: map<ChannelKey, nat>, accounted: map<ChannelKey, int>)

  ghost predicate Coupled(l: Ledger, h: Truth) {
    && h.last.Keys == l.channels.Keys == h.first.Keys == h.accounted.Keys && h.lastOf.Keys == l.packets.Keys
    && (forall c :: c in l.channels ==> ChannelCoupled(l, h, c))
    && (forall p :: p in l.packets ==> PacketCoupled(l, h, p))
  }

  ghost predicate ChannelCoupled(l: Ledger, h: Truth, c: ChannelKey)
    requires c in l.channels && c in h.last && c in h.first && c in h.accounted
  {
    && Genuine(h.last[c]) && ChannelOf(h.last[c].frame) == c
    && l.channels[c].master == h.last[c].frame.master && l.channels[c].virtual == h.last[c].frame.virtual
    && h.last[c].master == h.first[c] + h.accounted[c]
  }

  ghost predicate PacketCoupled(l: Ledger, h: Truth, p: PacketKey)
    requires p in l.packets && p in h.lastOf
  {
    && Genuine(h.lastOf[p]) && PacketOf(h.lastOf[p].frame) == p
    && l.packets[p].packet == h.lastOf[p].frame.packet
    && p.channel in h.last && h.lastOf[p].master <= h.last[p.channel].master
  }

  /** The frame is within half a modulus of what was last accepted, and was drawn in order with it. */
  predicate Expected(h: Truth, t: Sent) {
    var c, p := ChannelOf(t.frame), PacketOf(t.frame);
    && Genuine(t)
    && (c in h.last ==>
          && InWindow(h.last[c].master, t.master, FRAME_MODULUS) && InWindow(h.last[c].virtual, t.virtual, FRAME_MODULUS)
          && DrawnInOrder(h.last[c], t))
    && (p in h.lastOf ==> InWindow(h.lastOf[p].packet, t.packet, PACKET_MODULUS) && DrawnInOrder(h.lastOf[p], t))
  }

  /** New frames on the newest link, with epochs left: the counters alone decide. */
  predicate CountersDecide(l: Ledger, f: Frame) {
    && CopyOf(f) !in l.copies && LinkStatus(l, f).None?
    && EpochsLeft(l, f, RelationsOf(l, f))
  }

  function Learn(h: Truth, t: Sent, o: Observation): Truth {
    var c, p := ChannelOf(t.frame), PacketOf(t.frame);
    Truth(h.last[c := t], h.lastOf[p := t],
          if c in h.first then h.first else h.first[c := t.master],
          h.accounted[c := if c in h.accounted then h.accounted[c] + 1 + o.masterGap else 0])
  }

  /**
   A frame inside the window is accepted exactly when the sender drew it after the last accepted
   frame of its channel, and the gaps are exactly the frames and packets in between.
   */
  lemma ObserveIsTrue(l: Ledger, h: Truth, t: Sent)
    requires Coupled(l, h) && Expected(h, t) && CountersDecide(l, t.frame)
    ensures var c, p, o := ChannelOf(t.frame), PacketOf(t.frame), Outcome(l, t.frame);
      && o.Some?
      && (Accepted(o.value.status) <==> (c in h.last ==> t.master > h.last[c].master))
      && (Accepted(o.value.status) && c in h.last ==>
            o.value.masterGap == t.master - h.last[c].master - 1 && o.value.virtualGap == t.virtual - h.last[c].virtual - 1)
      && (Accepted(o.value.status) && p in h.lastOf ==> o.value.packetGap == t.packet - h.lastOf[p].packet - 1)
  {
    var c, p := ChannelOf(t.frame), PacketOf(t.frame);
    if c in h.last {
      assert ChannelCoupled(l, h, c);
      AdvanceIsTrue(h.last[c].master, t.master, FRAME_MODULUS);
      AdvanceIsTrue(h.last[c].virtual, t.virtual, FRAME_MODULUS);
    }
    if p in h.lastOf {
      assert PacketCoupled(l, h, p);
      AdvanceIsTrue(h.lastOf[p].packet, t.packet, PACKET_MODULUS);
    }
    hide Advance, Wrapped, InWindow, EpochsLeft, Coupled;
  }

  lemma ObserveKeepsTruth(l: Ledger, h: Truth, t: Sent)
    requires Coupled(l, h) && Expected(h, t) && CountersDecide(l, t.frame)
    ensures Coupled(After(l, t.frame), TruthAfter(l, h, t))
  {
    ObserveIsTrue(l, h, t);
    if IsAccepted(l, t.frame) {
      StoredIsTrue(l, h, t);
    } else {
      hide Advance, Expected, RelationsOf, StatusOf, EpochsLeft, ChannelCoupled, PacketCoupled;
      RefusedKeepsTables(l, t.frame);
      SameTables(l, After(l, t.frame), h);
    }
  }

  ghost function TruthAfter(l: Ledger, h: Truth, t: Sent): Truth {
    if IsAccepted(l, t.frame) then Learn(h, t, Outcome(l, t.frame).value) else h
  }

  lemma RefusedKeepsTables(l: Ledger, f: Frame)
    requires !IsAccepted(l, f)
    ensures After(l, f).channels == l.channels && After(l, f).packets == l.packets
  {
    hide RelationsOf, StatusOf, EpochsLeft, LinkStatus;
  }

  lemma SameTables(l: Ledger, d: Ledger, h: Truth)
    requires Coupled(l, h) && d.channels == l.channels && d.packets == l.packets
    ensures Coupled(d, h)
  {
    forall c | c in d.channels ensures ChannelCoupled(d, h, c) {
      assert ChannelCoupled(l, h, c);
    }
    forall p | p in d.packets ensures PacketCoupled(d, h, p) {
      assert PacketCoupled(l, h, p);
    }
  }

  /** What an accepted frame leaves in the tables. */
  lemma AcceptedStores(l: Ledger, f: Frame)
    requires IsAccepted(l, f) && CountersDecide(l, f)
    ensures var d, c := After(l, f), ChannelOf(f);
      && Holds(l, d, f)
      && d.channels[c].masterEpoch == Bumped(EpochOf(l.channels, c).masterEpoch, RelationsOf(l, f).master.0)
      && d.channels[c].virtualEpoch == Bumped(EpochOf(l.channels, c).virtualEpoch, RelationsOf(l, f).virtual.0)
  {
    hide StatusOf, EpochsLeft, LinkStatus, Advance;
  }

  lemma StoredIsTrue(l: Ledger, h: Truth, t: Sent)
    requires Coupled(l, h) && Expected(h, t) && CountersDecide(l, t.frame) && IsAccepted(l, t.frame)
    ensures Coupled(After(l, t.frame), Learn(h, t, Outcome(l, t.frame).value))
  {
    ObserveIsTrue(l, h, t);
    AcceptedStores(l, t.frame);
    var c, p, o := ChannelOf(t.frame), PacketOf(t.frame), Outcome(l, t.frame).value;
    var d, g := After(l, t.frame), Learn(h, t, o);
    assert c in h.last ==> ChannelCoupled(l, h, c);
    assert Genuine(t) && (c in h.last ==> t.master > h.last[c].master && o.masterGap == t.master - h.last[c].master - 1);
    hide Observe, Expected, RelationsOf, LinkStatus, After, Outcome, CountersDecide, Accepted, Genuine, Coupled, Learn, Holds;
    LearnedIsCoupled(l, d, h, t, o);
  }

  lemma LearnedIsCoupled(l: Ledger, d: Ledger, h: Truth, t: Sent, o: Observation)
    requires Coupled(l, h) && Genuine(t) && Holds(l, d, t.frame)
    requires ChannelOf(t.frame) in h.last ==>
               t.master > h.last[ChannelOf(t.frame)].master && o.masterGap == t.master - h.last[ChannelOf(t.frame)].master - 1
    ensures Coupled(d, Learn(h, t, o))
  {
    var g := Learn(h, t, o);
    hide Genuine, ChannelCoupled, PacketCoupled;
    assert g.last.Keys == d.channels.Keys == g.first.Keys == g.accounted.Keys && g.lastOf.Keys == d.packets.Keys;
    forall k | k in d.channels ensures k in g.last && k in g.first && k in g.accounted && ChannelCoupled(d, g, k) {
      ChannelLearned(l, d, h, t, o, k);
    }
    forall q | q in d.packets ensures q in g.lastOf && PacketCoupled(d, g, q) {
      PacketLearned(l, d, h, t, o, q);
    }
  }

  /** The tables of d hold this frame in its channel and packet rows and are otherwise those of l. */
  predicate Holds(l: Ledger, d: Ledger, f: Frame) {
    var c, p := ChannelOf(f), PacketOf(f);
    && c in d.channels && d.channels[c].master == f.master && d.channels[c].virtual == f.virtual
    && p in d.packets && d.packets[p].packet == f.packet
    && d.channels == l.channels[c := d.channels[c]] && d.packets == l.packets[p := d.packets[p]]
  }

  lemma ChannelLearned(l: Ledger, d: Ledger, h: Truth, t: Sent, o: Observation, k: ChannelKey)
    requires Coupled(l, h) && Genuine(t) && Holds(l, d, t.frame) && k in d.channels
    requires ChannelOf(t.frame) in h.last ==> o.masterGap == t.master - h.last[ChannelOf(t.frame)].master - 1
    ensures var g := Learn(h, t, o);
      k in g.last && k in g.first && k in g.accounted && ChannelCoupled(d, g, k)
  {
    assert k in l.channels ==> ChannelCoupled(l, h, k);
    hide Genuine, PacketCoupled;
  }

  lemma PacketLearned(l: Ledger, d: Ledger, h: Truth, t: Sent, o: Observation, q: PacketKey)
    requires Coupled(l, h) && Genuine(t) && Holds(l, d, t.frame) && q in d.packets
    requires ChannelOf(t.frame) in h.last ==> t.master > h.last[ChannelOf(t.frame)].master
    ensures var g := Learn(h, t, o);
      q in g.lastOf && PacketCoupled(d, g, q)
  {
    assert q in l.packets ==> PacketCoupled(l, h, q);
    hide Genuine, ChannelCoupled;
  }

  /** The counter stood still, moved on by one, or skipped some; wrapped if it came round to zero by one. */
  predicate Still(last: nat, now: nat) { now == last }

  predicate Skips(last: nat, now: nat) { now > last + 1 }

  predicate ComesRound(last: nat, now: nat, modulus: nat)
    requires 1 <= modulus
  {
    now == last + 1 && now % modulus == 0
  }

  /** What the sender's true counts say about a frame of a known channel and packet stream. */
  function TrueStatus(last: Sent, lastOf: Sent, t: Sent): Status {
    if Still(last.master, t.master) && Still(last.virtual, t.virtual) && Still(lastOf.packet, t.packet) then DUPLICATE
    else if t.master <= last.master then STALE_COUNTER
    else if Skips(last.master, t.master) || Skips(last.virtual, t.virtual) || Skips(lastOf.packet, t.packet) then GAP
    else if ComesRound(last.master, t.master, FRAME_MODULUS) || ComesRound(last.virtual, t.virtual, FRAME_MODULUS)
            || ComesRound(lastOf.packet, t.packet, PACKET_MODULUS) then ROLLOVER
    else IN_ORDER
  }

  /** The relation is the one that the true counts have. */
  predicate IsRelation(r: Relation, last: nat, now: nat, modulus: nat)
    requires 1 <= modulus
  {
    && (r == REL_DUPLICATE <==> now == last) && (r == REL_STALE <==> now < last)
    && (r == REL_GAP <==> Skips(last, now)) && (r == REL_ROLLOVER <==> ComesRound(last, now, modulus))
    && (r == REL_IN_ORDER <==> now == last + 1 && now % modulus != 0) && r != REL_BASELINE
  }

  lemma AdvanceIsRelation(last: nat, now: nat, modulus: nat)
    requires ModulusInUse(modulus) && InWindow(last, now, modulus)
    ensures IsRelation(Advance(Wrapped(last, modulus), Wrapped(now, modulus), modulus).0, last, now, modulus)
  {
    AdvanceIsTrue(last, now, modulus);
    if modulus == FRAME_MODULUS { ForwardIsDistance256(last, now); } else { ForwardIsDistance16384(last, now); }
  }

  lemma RelationsAreTrue(l: Ledger, h: Truth, t: Sent)
    requires Coupled(l, h) && Expected(h, t)
    ensures var c, p, r := ChannelOf(t.frame), PacketOf(t.frame), RelationsOf(l, t.frame);
      && (c in h.last ==> IsRelation(r.master.0, h.last[c].master, t.master, FRAME_MODULUS)
                          && IsRelation(r.virtual.0, h.last[c].virtual, t.virtual, FRAME_MODULUS))
      && (c !in h.last ==> r.master == (REL_BASELINE, 0) && r.virtual == (REL_BASELINE, 0))
      && (p in h.lastOf ==> IsRelation(r.packet.0, h.lastOf[p].packet, t.packet, PACKET_MODULUS))
      && (p !in h.lastOf ==> r.packet == (REL_BASELINE, 0))
  {
    var c, p := ChannelOf(t.frame), PacketOf(t.frame);
    if c in h.last {
      assert ChannelCoupled(l, h, c);
      AdvanceIsRelation(h.last[c].master, t.master, FRAME_MODULUS);
      AdvanceIsRelation(h.last[c].virtual, t.virtual, FRAME_MODULUS);
    }
    if p in h.lastOf {
      assert PacketCoupled(l, h, p);
      AdvanceIsRelation(h.lastOf[p].packet, t.packet, PACKET_MODULUS);
    }
    hide Advance, Coupled, IsRelation, InWindow, DrawnInOrder;
  }

  lemma OutcomeStatus(l: Ledger, f: Frame)
    requires CountersDecide(l, f)
    ensures Outcome(l, f).Some? && Outcome(l, f).value.status == StatusOf(RelationsOf(l, f))
    ensures Accepted(StatusOf(RelationsOf(l, f))) ==>
      var r := RelationsOf(l, f);
      Outcome(l, f).value == Observation(StatusOf(r), r.master.1, r.virtual.1, r.packet.1, FileGap(l.files, f))
  {
    var linked := l.(active := l.active[f.source := Link(f.generation, f.session)]);
    assert RelationsOf(linked, f) == RelationsOf(l, f) && (EpochsLeft(linked, f, RelationsOf(l, f)) <==> EpochsLeft(l, f, RelationsOf(l, f)));
    hide RelationsOf, StatusOf, EpochsLeft, LinkStatus, FileGap;
  }

  lemma TrueRelationsStatus(r: Relations, last: Sent, lastOf: Sent, t: Sent)
    requires IsRelation(r.master.0, last.master, t.master, FRAME_MODULUS) && IsRelation(r.virtual.0, last.virtual, t.virtual, FRAME_MODULUS)
    requires IsRelation(r.packet.0, lastOf.packet, t.packet, PACKET_MODULUS)
    requires (t.master > last.master <==> t.virtual > last.virtual) && (t.master > last.master ==> t.packet > lastOf.packet)
    requires (t.master == last.master <==> t.virtual == last.virtual)
    ensures StatusOf(r) == TrueStatus(last, lastOf, t)
  {
  }

  /** Inside the window the reported status is the true one, a frame's counts being drawn together; the first frame of a channel and stream is the baseline. */
  lemma StatusIsTrue(l: Ledger, h: Truth, t: Sent)
    requires Coupled(l, h) && Expected(h, t) && CountersDecide(l, t.frame)
    requires ChannelOf(t.frame) in h.last ==> (t.master == h.last[ChannelOf(t.frame)].master <==> t.virtual == h.last[ChannelOf(t.frame)].virtual)
    ensures var c, p, o := ChannelOf(t.frame), PacketOf(t.frame), Outcome(l, t.frame);
      && o.Some?
      && (c in h.last && p in h.lastOf ==> o.value.status == TrueStatus(h.last[c], h.lastOf[p], t))
      && (c !in h.last && p !in h.lastOf ==> o.value == Observation(BASELINE, 0, 0, 0, FileGap(l.files, t.frame)))
  {
    var c, p := ChannelOf(t.frame), PacketOf(t.frame);
    RelationsAreTrue(l, h, t);
    OutcomeStatus(l, t.frame);
    if c in h.last && p in h.lastOf {
      assert PacketCoupled(l, h, p);
      if t.master > h.last[c].master { LaterFrameLaterPacket(h, t); }
      hide IsRelation, Coupled, RelationsOf, StatusOf, TrueStatus, InWindow;
      TrueRelationsStatus(RelationsOf(l, t.frame), h.last[c], h.lastOf[p], t);
    } else {
      hide IsRelation, Coupled, RelationsOf, InWindow, EpochsLeft, LinkStatus, FileGap;
    }
  }

  // ---------------------------------------------------------------- runs of genuine frames

  ghost predicate AllExpected(l: Ledger, h: Truth, ts: seq<Sent>)
    decreases |ts|
  {
    ts == [] || (Expected(h, ts[0]) && CountersDecide(l, ts[0].frame)
                 && AllExpected(After(l, ts[0].frame), TruthAfter(l, h, ts[0]), ts[1..]))
  }

  ghost function TruthAfterAll(l: Ledger, h: Truth, ts: seq<Sent>): Truth
    decreases |ts|
  {
    if ts == [] then h else TruthAfterAll(After(l, ts[0].frame), TruthAfter(l, h, ts[0]), ts[1..])
  }

  /** The channel's last accepted frame moves forward, and gaps plus frames add up to the distance. */
  ghost predicate Accounted(h: Truth, g: Truth, c: ChannelKey)
    requires c in h.last
  {
    && c in g.last && c in g.first && c in h.first && c in g.accounted && c in h.accounted
    && h.last[c].master <= g.last[c].master
    && g.first[c] == h.first[c]
    && g.accounted[c] - h.accounted[c] == g.last[c].master - h.last[c].master
  }

  lemma StepAccounted(l: Ledger, h: Truth, t: Sent, c: ChannelKey)
    requires Coupled(l, h) && Expected(h, t) && CountersDecide(l, t.frame) && c in h.last
    ensures Accounted(h, TruthAfter(l, h, t), c)
  {
    ObserveIsTrue(l, h, t);
    hide Observe, InWindow, DrawnInOrder, Wrapped, RelationsOf, EpochsLeft, LinkStatus, After, Genuine, ChannelCoupled, PacketCoupled;
  }

  /**
   Over any run of frames inside the window, the sum of one plus the reported gap over the
   accepted frames of a channel is the number of frames the sender drew from the first accepted
   to the last: what is lost is counted exactly.
   */
  lemma {:induction false} LossIsCountedExactly(l: Ledger, h: Truth, ts: seq<Sent>, c: ChannelKey)
    requires Coupled(l, h) && AllExpected(l, h, ts) && c in h.last
    ensures Accounted(h, TruthAfterAll(l, h, ts), c)
    decreases |ts|
  {
    hide Coupled, Expected, CountersDecide, After, TruthAfter;
    if ts == [] {
      SelfAccounted(l, h, c);
    } else {
      StepAccounted(l, h, ts[0], c);
      ObserveKeepsTruth(l, h, ts[0]);
      LossIsCountedExactly(After(l, ts[0].frame), TruthAfter(l, h, ts[0]), ts[1..], c);
    }
  }

  lemma SelfAccounted(l: Ledger, h: Truth, c: ChannelKey)
    requires Coupled(l, h) && c in h.last
    ensures Accounted(h, h, c)
  {
  }

  const NOTHING_SEEN: Ledger := Ledger(map[], map[], map[], map[], map[])

  const NOTHING_KNOWN: Truth := Truth(map[], map[], map[], map[])

  lemma {:induction false} RunKeepsTruth(l: Ledger, h: Truth, ts: seq<Sent>)
    requires Coupled(l, h) && AllExpected(l, h, ts)
    ensures Coupled(AfterSent(l, ts), TruthAfterAll(l, h, ts))
    decreases |ts|
  {
    hide Coupled, Expected, CountersDecide, After, TruthAfter;
    if ts != [] {
      ObserveKeepsTruth(l, h, ts[0]);
      RunKeepsTruth(After(l, ts[0].frame), TruthAfter(l, h, ts[0]), ts[1..]);
    }
  }

  function AfterSent(l: Ledger, ts: seq<Sent>): Ledger
    decreases |ts|
  {
    if ts == [] then l else AfterSent(After(l, ts[0].frame), ts[1..])
  }

  /**
   From the empty ledger on: for every channel seen in a run of frames inside the window, one plus
   the gap summed over the accepted frames after the first is the true distance of the last
   accepted frame from the first.
   */
  lemma LossFromTheStart(ts: seq<Sent>, c: ChannelKey)
    requires AllExpected(NOTHING_SEEN, NOTHING_KNOWN, ts) && c in TruthAfterAll(NOTHING_SEEN, NOTHING_KNOWN, ts).last
    ensures var g := TruthAfterAll(NOTHING_SEEN, NOTHING_KNOWN, ts);
      && c in g.first && c in g.accounted && c in AfterSent(NOTHING_SEEN, ts).channels
      && g.accounted[c] == g.last[c].master - g.first[c]
      && AfterSent(NOTHING_SEEN, ts).channels[c].master == Wrapped(g.last[c].master, FRAME_MODULUS)
  {
    assert Coupled(NOTHING_SEEN, NOTHING_KNOWN);
    RunKeepsTruth(NOTHING_SEEN, NOTHING_KNOWN, ts);
    assert ChannelCoupled(AfterSent(NOTHING_SEEN, ts), TruthAfterAll(NOTHING_SEEN, NOTHING_KNOWN, ts), c);
    hide AllExpected, TruthAfterAll, AfterSent, Wrapped;
  }

  // ---------------------------------------------------------------- the tracked epoch

  /**
   The tracked master epoch follows the true one on an accepted frame exactly when the frame is
   not a gap that skips over the wrap.
   */
  lemma EpochFollowsUnlessGapWraps(l: Ledger, h: Truth, t: Sent)
    requires Coupled(l, h) && Expected(h, t) && CountersDecide(l, t.frame) && IsAccepted(l, t.frame)
    requires ChannelOf(t.frame) in h.last
    ensures var c := ChannelOf(t.frame);
      && c in l.channels && c in After(l, t.frame).channels
      && (After(l, t.frame).channels[c].masterEpoch - l.channels[c].masterEpoch
            == t.master / FRAME_MODULUS - h.last[c].master / FRAME_MODULUS
          <==> !(t.master > h.last[c].master + 1 && t.frame.master < l.channels[c].master))
  {
    var c := ChannelOf(t.frame);
    assert ChannelCoupled(l, h, c);
    ObserveIsTrue(l, h, t);
    AcceptedStores(l, t.frame);
    AdvanceIsTrue(h.last[c].master, t.master, FRAME_MODULUS);
    QuotientSteps(h.last[c].master, t.master);
    hide Observe, Advance, Coupled, Expected, CountersDecide, IsAccepted, After, Outcome, LinkStatus, EpochsLeft;
  }

  /** The same of the virtual channel count. */
  lemma VirtualEpochFollows(l: Ledger, h: Truth, t: Sent)
    requires Coupled(l, h) && Expected(h, t) && CountersDecide(l, t.frame) && IsAccepted(l, t.frame)
    requires ChannelOf(t.frame) in h.last
    ensures var c := ChannelOf(t.frame);
      && c in l.channels && c in After(l, t.frame).channels
      && (After(l, t.frame).channels[c].virtualEpoch - l.channels[c].virtualEpoch
            == t.virtual / FRAME_MODULUS - h.last[c].virtual / FRAME_MODULUS
          <==> !(t.virtual > h.last[c].virtual + 1 && t.frame.virtual < l.channels[c].virtual))
  {
    var c := ChannelOf(t.frame);
    assert ChannelCoupled(l, h, c);
    ObserveIsTrue(l, h, t);
    AcceptedStores(l, t.frame);
    AdvanceIsTrue(h.last[c].virtual, t.virtual, FRAME_MODULUS);
    QuotientSteps(h.last[c].virtual, t.virtual);
    hide Observe, Advance, Coupled, Expected, CountersDecide, IsAccepted, After, Outcome, LinkStatus, EpochsLeft;
  }

  /** And of the packet count of each stream. */
  lemma PacketEpochFollows(l: Ledger, h: Truth, t: Sent)
    requires Coupled(l, h) && Expected(h, t) && CountersDecide(l, t.frame) && IsAccepted(l, t.frame)
    requires PacketOf(t.frame) in h.lastOf && ChannelOf(t.frame) in h.last
    ensures var p := PacketOf(t.frame);
      && p in l.packets && p in After(l, t.frame).packets
      && (After(l, t.frame).packets[p].epoch - l.packets[p].epoch == t.packet / PACKET_MODULUS - h.lastOf[p].packet / PACKET_MODULUS
          <==> !(t.packet > h.lastOf[p].packet + 1 && t.frame.packet < l.packets[p].packet))
  {
    var p := PacketOf(t.frame);
    assert PacketCoupled(l, h, p);
    ObserveIsTrue(l, h, t);
    AcceptedPacket(l, t.frame);
    LaterFrameLaterPacket(h, t);
    AdvanceIsTrue(h.lastOf[p].packet, t.packet, PACKET_MODULUS);
    PacketQuotientSteps(h.lastOf[p].packet, t.packet);
    hide Observe, Advance, Coupled, Expected, CountersDecide, IsAccepted, After, Outcome, LinkStatus, EpochsLeft;
  }

  /** Stored epochs fit their columns. */
  ghost predicate EpochsFit(l: Ledger) {
    && (forall c :: c in l.channels ==> l.channels[c].masterEpoch <= U32_MAX && l.channels[c].virtualEpoch <= U32_MAX)
    && (forall p :: p in l.packets ==> l.packets[p].epoch <= U32_MAX)
  }

  /**
   A frame is refused altogether exactly when it is no copy, its link and counts are acceptable, and
   a count that rolls over is in its last epoch. Stored epochs always fit.
   */
  lemma RefusedAltogetherIff(l: Ledger, f: Frame)
    requires EpochsFit(l)
    ensures Observe(l, f).Err? <==>
      && CopyOf(f) !in l.copies && LinkStatus(l, f).None? && Accepted(StatusOf(RelationsOf(l, f)))
      && var r := RelationsOf(l, f);
         var c, p := ChannelOf(f), PacketOf(f);
         || (r.master.0 == REL_ROLLOVER && c in l.channels && l.channels[c].masterEpoch == U32_MAX)
         || (r.virtual.0 == REL_ROLLOVER && c in l.channels && l.channels[c].virtualEpoch == U32_MAX)
         || (r.packet.0 == REL_ROLLOVER && p in l.packets && l.packets[p].epoch == U32_MAX)
    ensures Observe(l, f).Ok? ==> EpochsFit(Observe(l, f).value.0)
  {
    var linked := l.(active := l.active[f.source := Link(f.generation, f.session)]);
    assert RelationsOf(linked, f) == RelationsOf(l, f);
    hide StatusOf, LinkStatus, Advance, FilesAfter, FileGap;
  }

  lemma LaterFrameLaterPacket(h: Truth, t: Sent)
    requires Expected(h, t) && ChannelOf(t.frame) in h.last && PacketOf(t.frame) in h.lastOf
    requires PacketOf(h.lastOf[PacketOf(t.frame)].frame) == PacketOf(t.frame)
    requires h.lastOf[PacketOf(t.frame)].master <= h.last[ChannelOf(t.frame)].master < t.master
    ensures h.lastOf[PacketOf(t.frame)].packet < t.packet
    ensures InWindow(h.lastOf[PacketOf(t.frame)].packet, t.packet, PACKET_MODULUS)
  {
  }

  lemma AcceptedPacket(l: Ledger, f: Frame)
    requires IsAccepted(l, f) && CountersDecide(l, f)
    ensures PacketOf(f) in After(l, f).packets
    ensures After(l, f).packets[PacketOf(f)] == PacketState(f.packet, Bumped(PacketEpoch(l.packets, PacketOf(f)), RelationsOf(l, f).packet.0))
  {
    hide StatusOf, EpochsLeft, LinkStatus, Advance;
  }

  lemma PacketQuotientSteps(last: nat, now: nat)
    requires last < now < last + 8192
    ensures now / 16384 - last / 16384 == if now % 16384 < last % 16384 then 1 else 0
  {
  }

  lemma QuotientSteps(last: nat, now: nat)
    requires last < now < last + 128
    ensures now / 256 - last / 256 == if now % 256 < last % 256 then 1 else 0
  {
  }

  // ---------------------------------------------------------------- in place

  class TmCounterLedger {
    var copies: map<CopyKey, Copy>
    var active: map<nat, Link>
    var channels: map<ChannelKey, Channel>
    var packets: map<PacketKey, PacketState>
    var files: map<FileKey, nat>

    function Value(): Ledger
      reads this
    {
      Ledger(copies, active, channels, packets, files)
    }

    /** One transaction per frame; an exhausted epoch rolls everything back. */
    method ObserveFrame(f: Frame) returns (r: Option<Observation>)
      modifies this
      ensures Value() == After(old(Value()), f) && r == Outcome(old(Value()), f)
    {
      hide StatusOf, Advance, Forward;
      var copy, c, p := CopyOf(f), ChannelOf(f), PacketOf(f);
      if copy in copies {
        return Some(Refusal(if copies[copy].sha != f.sha then COUNTER_CONFLICT else DUPLICATE));
      }
      var before := active;
      if f.source in active {
        var a := active[f.source];
        if f.generation < a.generation {
          copies := copies[copy := Copy(f.sha, Refusal(STALE_GENERATION))];
          return Some(Refusal(STALE_GENERATION));
        }
        if f.generation == a.generation && f.session != a.session {
          copies := copies[copy := Copy(f.sha, Refusal(STALE_SESSION))];
          return Some(Refusal(STALE_SESSION));
        }
      }
      active := active[f.source := Link(f.generation, f.session)];
      var relations := RelationsOf(Value(), f);
      var status := StatusOf(relations);
      if !Accepted(status) {
        copies := copies[copy := Copy(f.sha, Refusal(status))];
        return Some(Refusal(status));
      }
      if !EpochsLeft(Value(), f, relations) {
        active := before;
        return None;
      }
      var row := EpochOf(channels, c);
      var packetEpoch := PacketEpoch(packets, p);
      channels := channels[c := Channel(f.master, f.virtual, Bumped(row.masterEpoch, relations.master.0),
                                        Bumped(row.virtualEpoch, relations.virtual.0))];
      packets := packets[p := PacketState(f.packet, Bumped(packetEpoch, relations.packet.0))];
      var fileGap := 0;
      if f.file.Some? {
        var k := FileKey(p, f.file.value.scope);
        if k !in files {
          files := files[k := f.file.value.sequence];
        } else if f.file.value.sequence > files[k] {
          fileGap := f.file.value.sequence - files[k] - 1;
          files := files[k := f.file.value.sequence];
        }
      }
      var o := Observation(status, relations.master.1, relations.virtual.1, relations.packet.1, fileGap);
      copies := copies[copy := Copy(f.sha, o)];
      r := Some(o);
    }
  }
}
