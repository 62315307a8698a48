/**
 How the satellite decides on one command: target check, journal lookup, then the opcode's own
 work recorded together with its effect, except for the two cancel opcodes, which act first
 and record afterwards.
 */
module Satellite {
  import opened Bytes
  import opened OutboxModel
  import opened Journal
  import IntervalIndex

  datatype Opcode =
    | CLOUD_SET_CONFIG | SCENE_REQUEST_CATALOG | SCENE_REQUEST_PREVIEW | SCENE_ANALYZE | ROI_REQUEST
    | JOB_GET_STATUS | JOB_CANCEL | PRODUCT_REQUEST_DOWNLINK | PRODUCT_CANCEL_DOWNLINK | UNASSIGNED

  function Code(o: Opcode): nat {
    match o
    case CLOUD_SET_CONFIG => 0x0001_0001
    case SCENE_REQUEST_CATALOG => 0x0001_0002
    case SCENE_REQUEST_PREVIEW => 0x0001_0003
    case SCENE_ANALYZE => 0x0001_0004
    case ROI_REQUEST => 0x0001_0005
    case JOB_GET_STATUS => 0x0001_0006
    case JOB_CANCEL => 0x0001_0007
    case PRODUCT_REQUEST_DOWNLINK => 0x0001_0008
    case PRODUCT_CANCEL_DOWNLINK => 0x0001_0009
    case UNASSIGNED => 0
  }

  datatype Config = Config(epoch: nat, revision: nat, modelBp: nat, coverageBp: nat)

  datatype TcCommand = TcCommand(
    target: nat, key: Key, opcode: Opcode, digest: seq<byte>,
    expectedEpoch: nat, expectedRevision: nat, modelBp: nat, coverageBp: nat)

  /** What the opcode's own checks say, and whether the process dies between acting and recording. */
  datatype Local = Local(accepts: bool, state: RecordState, result: seq<byte>, refusal: seq<byte>, specMatches: bool, crashes: bool)

  datatype Response = Response(key: Key, lookup: Lookup, accepted: bool, result: seq<byte>)

  /** One-based order of configuration identities: 2^32 revisions per epoch. */
  function Index(c: Config): nat {
    c.epoch * U32_MODULUS + c.revision
  }

  function NextConfig(c: Config, modelBp: nat, coverageBp: nat): Option<Config> {
    if c.revision >= U32_MAX then
      if c.epoch >= U32_MAX then None else Some(Config(c.epoch + 1, 0, modelBp, coverageBp))
    else Some(Config(c.epoch, c.revision + 1, modelBp, coverageBp))
  }

  /** `acted` and `commits` record every execution and the identity every configuration commit replaced. */
  datatype Sat = Sat(me: nat, journal: Ledger, config: Config, acted: seq<TcCommand>, commits: seq<nat>)

  function RecordOf(c: TcCommand, state: RecordState, result: seq<byte>): Record {
    Record(Code(c.opcode), c.digest, state, result)
  }

  function Put(s: Sat, c: TcCommand, state: RecordState, result: seq<byte>): Sat {
    s.(journal := s.journal.(full := s.journal.full[c.key := RecordOf(c, state, result)]))
  }

  function Reject(s: Sat, c: TcCommand, local: Local): (Sat, Option<Response>) {
    (Put(s, c, COMMAND_REJECTED, local.refusal), Some(Response(c.key, NEW, false, local.refusal)))
  }

  predicate ActsFirst(o: Opcode) {
    o == JOB_CANCEL || o == PRODUCT_CANCEL_DOWNLINK
  }

  function SetConfig(s: Sat, c: TcCommand, local: Local): (Sat, Option<Response>) {
    var next := NextConfig(s.config, c.modelBp, c.coverageBp);
    if !local.specMatches || s.config.epoch != c.expectedEpoch || s.config.revision != c.expectedRevision || next.None?
    then Reject(s, c, local)
    else (Put(s, c, RECORD_EXECUTED, local.result).(config := next.value, acted := s.acted + [c], commits := s.commits + [Index(s.config)]),
          Some(Response(c.key, NEW, true, local.result)))
  }

  /** The first time a key is seen. */
  function Execute(s: Sat, c: TcCommand, local: Local): (Sat, Option<Response>) {
    if c.opcode == CLOUD_SET_CONFIG then SetConfig(s, c, local)
    else if c.opcode == UNASSIGNED || !local.accepts then Reject(s, c, local)
    else if ActsFirst(c.opcode) && local.crashes then (s.(acted := s.acted + [c]), None)
    else (Put(s, c, local.state, local.result).(acted := s.acted + [c]), Some(Response(c.key, NEW, true, local.result)))
  }

  /** Handling one delivered command; no response when the handler dies. */
  ghost function Handle(s: Sat, c: TcCommand, local: Local): (Sat, Option<Response>) {
    if c.target != s.me then
      if c.key in s.journal.full then (s, None) else Reject(s, c, local)
    else match Find(s.journal, c.key, c.digest)
      case NEW => Execute(s, c, local)
      case found => (s, Some(Response(c.key, found, false, if found.DUPLICATE? then found.result else local.refusal)))
  }

  // ---------------------------------------------------------------- at most once

  /**
   Every key acted on is on record unless it belonged to a cancel command, and two executions of
   one key can only be cancel commands.
   */
  ghost predicate OnceInv(s: Sat) {
    && (forall i :: 0 <= i < |s.acted| && !ActsFirst(s.acted[i].opcode) ==> Seen(s.journal, s.acted[i].key))
    && (forall i, j :: 0 <= i < j < |s.acted| && s.acted[i].key == s.acted[j].key ==>
          ActsFirst(s.acted[i].opcode))
    && (forall i :: 0 <= i < |s.acted| ==> s.acted[i].target == s.me)
  }

  /** Configuration commits replaced the identities first, first + 1, and so on up to the current one. */
  predicate ConfigInv(s: Sat, first: nat) {
    && s.config.revision <= U32_MAX && s.config.epoch <= U32_MAX
    && Index(s.config) == first + |s.commits|
    && (forall i :: 0 <= i < |s.commits| ==> s.commits[i] == first + i)
  }

  lemma IndexAdvancesByOne(c: Config, modelBp: nat, coverageBp: nat)
    requires c.revision <= U32_MAX && NextConfig(c, modelBp, coverageBp).Some?
    ensures Index(NextConfig(c, modelBp, coverageBp).value) == Index(c) + 1
  {
  }

  /** Handling only adds to what has been seen. */
  lemma HandleRemembers(s: Sat, c: TcCommand, local: Local, k: Key)
    requires Seen(s.journal, k)
    ensures Seen(Handle(s, c, local).0.journal, k)
  {
  }

  /** Whoever gets a response can rely on the key being recorded or retired. */
  lemma ResponseMeansSeen(s: Sat, c: TcCommand, local: Local)
    requires Handle(s, c, local).1.Some?
    ensures Seen(Handle(s, c, local).0.journal, c.key)
    ensures Handle(s, c, local).1.value.key == c.key
  {
  }

  lemma HandleKeepsOnce(s: Sat, c: TcCommand, local: Local)
    requires OnceInv(s)
    ensures OnceInv(Handle(s, c, local).0)
  {
    var d := Handle(s, c, local).0;
    if d.acted != s.acted {
      assert d.acted == s.acted + [c] && !Seen(s.journal, c.key);
      assert c.target == s.me;
      forall i | 0 <= i < |s.acted| ensures d.acted[i] == s.acted[i] {
      }
    }
    forall i | 0 <= i < |s.acted| && !ActsFirst(s.acted[i].opcode) ensures Seen(d.journal, s.acted[i].key) {
      HandleRemembers(s, c, local, s.acted[i].key);
    }
    hide Handle, Seen;
    NewActIsSeen(s, c, local);
  }

  lemma NewActIsSeen(s: Sat, c: TcCommand, local: Local)
    ensures var d := Handle(s, c, local).0;
      && d.me == s.me
      && (d.acted == s.acted || (d.acted == s.acted + [c] && c.target == s.me && !Seen(s.journal, c.key)
            && (ActsFirst(c.opcode) || Seen(d.journal, c.key))))
  {
  }

  lemma HandleKeepsConfig(s: Sat, c: TcCommand, local: Local, first: nat)
    requires ConfigInv(s, first)
    ensures ConfigInv(Handle(s, c, local).0, first)
  {
    if NextConfig(s.config, c.modelBp, c.coverageBp).Some? {
      IndexAdvancesByOne(s.config, c.modelBp, c.coverageBp);
    }
    hide Index, Find;
  }

  // ---------------------------------------------------------------- runs of one satellite

  datatype SatEvent =
    | Deliver(command: TcCommand, local: Local)
    | Compact(key: Key, relatedTerminal: bool)

  ghost function SatStep(s: Sat, ev: SatEvent): Sat {
    match ev
    case Deliver(c, local) => Handle(s, c, local).0
    case Compact(k, related) =>
      if k in s.journal.full && Compactable(s.journal.full[k], related) then s.(journal := Compacted(s.journal, k)) else s
  }

  lemma SatStepRemembers(s: Sat, ev: SatEvent, k: Key)
    requires Seen(s.journal, k)
    ensures Seen(SatStep(s, ev).journal, k)
  {
    if ev.Deliver? {
      HandleRemembers(s, ev.command, ev.local, k);
    }
  }

  lemma SatStepKeepsOnce(s: Sat, ev: SatEvent)
    requires OnceInv(s)
    ensures OnceInv(SatStep(s, ev))
  {
    if ev.Deliver? {
      HandleKeepsOnce(s, ev.command, ev.local);
    } else {
      forall i | 0 <= i < |s.acted| && !ActsFirst(s.acted[i].opcode) ensures Seen(SatStep(s, ev).journal, s.acted[i].key) {
        SatStepRemembers(s, ev, s.acted[i].key);
      }
    }
  }

  lemma SatStepKeepsConfig(s: Sat, ev: SatEvent, first: nat)
    requires ConfigInv(s, first)
    ensures ConfigInv(SatStep(s, ev), first)
  {
    if ev.Deliver? {
      HandleKeepsConfig(s, ev.command, ev.local, first);
    }
  }

  ghost function SatRun(s: Sat, events: seq<SatEvent>): Sat
    decreases |events|
  {
    if events == [] then s else SatRun(SatStep(s, events[0]), events[1..])
  }

  /**
   Over any deliveries, repetitions, reorderings and compactions: no key is acted on twice unless
   its first execution was a cancel command, and of the commands naming one configuration
   identity at most one commits, each commit advancing the identity by exactly one.
   */
  lemma {:induction false} ActsAtMostOnce(s: Sat, events: seq<SatEvent>, first: nat)
    requires OnceInv(s) && ConfigInv(s, first)
    ensures var d := SatRun(s, events);
      && (forall i, j :: 0 <= i < j < |d.acted| && d.acted[i].key == d.acted[j].key ==> ActsFirst(d.acted[i].opcode))
      && (forall i, j :: 0 <= i < j < |d.commits| ==> d.commits[i] < d.commits[j])
      && Index(d.config) == first + |d.commits|
    decreases |events|
  {
    hide SatStep;
    if events != [] {
      SatStepKeepsOnce(s, events[0]);
      SatStepKeepsConfig(s, events[0], first);
      hide OnceInv, ConfigInv;
      ActsAtMostOnce(SatStep(s, events[0]), events[1..], first);
    }
  }

  // ---------------------------------------------------------------- configuration

  /** The configuration identity a command names, in the order of identities. */
  function Named(c: TcCommand): nat {
    c.expectedEpoch * U32_MODULUS + c.expectedRevision
  }

  /** Configuration commands that were acted on named ever later identities, all before the current one. */
  predicate NamedInOrder(s: Sat) {
    && (forall i :: 0 <= i < |s.acted| && s.acted[i].opcode == CLOUD_SET_CONFIG ==> Named(s.acted[i]) < Index(s.config))
    && (forall i, j :: 0 <= i < j < |s.acted| && s.acted[i].opcode == CLOUD_SET_CONFIG && s.acted[j].opcode == CLOUD_SET_CONFIG ==>
          Named(s.acted[i]) < Named(s.acted[j]))
  }

  /** The last identity of all has no successor. */
  predicate HasSuccessor(c: Config) {
    c.revision < U32_MAX || c.epoch < U32_MAX
  }

  /**
   A command changes the configuration exactly when it is a configuration command for this
   satellite under a new key, fits the decision spec, and names the current identity, which has a
   successor. The configuration is then that successor with the command's two thresholds.
   */
  lemma ConfigChangesIff(s: Sat, c: TcCommand, local: Local)
    requires s.config.revision <= U32_MAX && s.config.epoch <= U32_MAX
    ensures var d := Handle(s, c, local).0;
      && (d.config != s.config <==>
            c.opcode == CLOUD_SET_CONFIG && c.target == s.me && !Seen(s.journal, c.key) && local.specMatches
            && c.expectedEpoch == s.config.epoch && c.expectedRevision == s.config.revision && HasSuccessor(s.config))
      && (d.config != s.config ==>
            && Index(d.config) == Index(s.config) + 1 && d.config.revision <= U32_MAX
            && d.config.modelBp == c.modelBp && d.config.coverageBp == c.coverageBp
            && d.acted == s.acted + [c] && c.key in d.journal.full && d.journal.full[c.key].state == RECORD_EXECUTED)
      && (c.opcode == CLOUD_SET_CONFIG && d.config == s.config ==> d.acted == s.acted)
  {
  }

  lemma HandleKeepsNamed(s: Sat, c: TcCommand, local: Local, first: nat)
    requires ConfigInv(s, first) && NamedInOrder(s)
    ensures NamedInOrder(Handle(s, c, local).0)
  {
    ConfigChangesIff(s, c, local);
    NewActIsSeen(s, c, local);
    hide Handle, Seen, Index, NextConfig;
    var d := Handle(s, c, local).0;
    if d.config != s.config {
      NamesCurrent(s.config, c);
    }
  }

  lemma NamesCurrent(config: Config, c: TcCommand)
    requires c.expectedEpoch == config.epoch && c.expectedRevision == config.revision
    ensures Named(c) == Index(config)
  {
  }

  lemma SatStepKeepsNamed(s: Sat, ev: SatEvent, first: nat)
    requires ConfigInv(s, first) && NamedInOrder(s)
    ensures NamedInOrder(SatStep(s, ev))
  {
    if ev.Deliver? {
      HandleKeepsNamed(s, ev.command, ev.local, first);
    }
  }

  /** No two configuration commands that were acted on named the same identity. */
  predicate OncePerIdentity(acted: seq<TcCommand>) {
    forall i, j :: 0 <= i < j < |acted| && acted[i].opcode == CLOUD_SET_CONFIG && acted[j].opcode == CLOUD_SET_CONFIG ==>
      acted[i].expectedEpoch != acted[j].expectedEpoch || acted[i].expectedRevision != acted[j].expectedRevision
  }

  lemma OrderMeansOnce(s: Sat)
    requires NamedInOrder(s)
    ensures OncePerIdentity(s.acted)
  {
    forall i, j | 0 <= i < j < |s.acted| && s.acted[i].opcode == CLOUD_SET_CONFIG && s.acted[j].opcode == CLOUD_SET_CONFIG
      ensures s.acted[i].expectedEpoch != s.acted[j].expectedEpoch || s.acted[i].expectedRevision != s.acted[j].expectedRevision
    {
      assert Named(s.acted[i]) < Named(s.acted[j]);
    }
  }

  /** Over any run, of the commands naming one configuration identity at most one commits. */
  lemma {:induction false} OneCommitPerIdentity(s: Sat, events: seq<SatEvent>, first: nat)
    requires ConfigInv(s, first) && NamedInOrder(s)
    ensures OncePerIdentity(SatRun(s, events).acted)
    decreases |events|
  {
    hide SatStep, ConfigInv, NamedInOrder, OncePerIdentity;
    if events == [] {
      OrderMeansOnce(s);
    } else {
      SatStepKeepsNamed(s, events[0], first);
      SatStepKeepsConfig(s, events[0], first);
      OneCommitPerIdentity(SatStep(s, events[0]), events[1..], first);
    }
  }

  // ---------------------------------------------------------------- what is done and answered

  /** The opcode's own conditions are met. */
  predicate Executable(s: Sat, c: TcCommand, local: Local) {
    if c.opcode == CLOUD_SET_CONFIG then
      local.specMatches && c.expectedEpoch == s.config.epoch && c.expectedRevision == s.config.revision && HasSuccessor(s.config)
    else c.opcode != UNASSIGNED && local.accepts
  }

  /** The journal with one record more. */
  predicate Recorded(s: Sat, d: Sat, c: TcCommand, state: RecordState, result: seq<byte>) {
    d.journal == s.journal.(full := s.journal.full[c.key := Record(Code(c.opcode), c.digest, state, result)])
  }

  /**
   A command under a new key is executed, recorded and accepted when its opcode's conditions are
   met, and otherwise recorded as rejected and refused; the cancel handler that dies leaves no
   record and no answer.
   */
  lemma NewCommandOutcome(s: Sat, c: TcCommand, local: Local)
    requires c.target == s.me && !Seen(s.journal, c.key) && s.config.revision <= U32_MAX && s.config.epoch <= U32_MAX
    ensures var (d, answer) := Handle(s, c, local);
      if !Executable(s, c, local) then
        d.acted == s.acted && Recorded(s, d, c, COMMAND_REJECTED, local.refusal) && answer == Some(Response(c.key, NEW, false, local.refusal))
      else if ActsFirst(c.opcode) && local.crashes then
        d == s.(acted := s.acted + [c]) && answer == None
      else
        && d.acted == s.acted + [c] && answer == Some(Response(c.key, NEW, true, local.result))
        && Recorded(s, d, c, if c.opcode == CLOUD_SET_CONFIG then RECORD_EXECUTED else local.state, local.result)
  {
    hide Index;
  }

  /** A command under a key that was seen changes nothing: a copy gets the recorded result, another command a conflict, a retired key a refusal. */
  lemma SeenCommandOutcome(s: Sat, c: TcCommand, local: Local)
    requires c.target == s.me && Seen(s.journal, c.key)
    ensures Handle(s, c, local) ==
      (s, Some(if c.key !in s.journal.full then Response(c.key, RETIRED, false, local.refusal)
               else if s.journal.full[c.key].digest != c.digest then Response(c.key, CONFLICT, false, local.refusal)
               else Response(c.key, DUPLICATE(s.journal.full[c.key].result), false, s.journal.full[c.key].result)))
  {
  }

  /** A command for another satellite is recorded as rejected and refused, unless its key has a record; then it is dropped. */
  lemma MisdirectedOutcome(s: Sat, c: TcCommand, local: Local)
    requires c.target != s.me
    ensures var (d, answer) := Handle(s, c, local);
      if c.key in s.journal.full then d == s && answer == None
      else d.acted == s.acted && d.config == s.config && Recorded(s, d, c, COMMAND_REJECTED, local.refusal)
           && answer == Some(Response(c.key, NEW, false, local.refusal))
  {
  }

  /** Each assigned opcode has a code of its own. */
  lemma CodesAreDistinct(o1: Opcode, o2: Opcode)
    requires Code(o1) == Code(o2)
    ensures o1 == o2
  {
  }

  /** The record of a key stays until the key is compacted. */
  lemma {:induction false} RecordStays(s: Sat, events: seq<SatEvent>, k: Key)
    requires k in s.journal.full && forall e :: e in events && e.Compact? ==> e.key != k
    ensures k in SatRun(s, events).journal.full && SatRun(s, events).journal.full[k] == s.journal.full[k]
    ensures SatRun(s, events).me == s.me
    decreases |events|
  {
    if events != [] {
      assert events[0] in events;
      RecordStaysOnce(s, events[0], k);
      hide SatStep;
      RecordStays(SatStep(s, events[0]), events[1..], k);
    }
  }

  lemma RecordStaysOnce(s: Sat, ev: SatEvent, k: Key)
    requires k in s.journal.full && (ev.Compact? ==> ev.key != k)
    ensures k in SatStep(s, ev).journal.full && SatStep(s, ev).journal.full[k] == s.journal.full[k] && SatStep(s, ev).me == s.me
  {
    hide Index;
  }

  /**
   Whoever sends a command again, after whatever else has been handled and before its key is
   compacted, gets the result of the first answer back, and nothing is done.
   */
  lemma CopyGetsTheSameResult(s: Sat, c: TcCommand, local: Local, events: seq<SatEvent>, again: Local)
    requires c.target == s.me && !Seen(s.journal, c.key) && s.config.revision <= U32_MAX && s.config.epoch <= U32_MAX
    requires Handle(s, c, local).1.Some?
    requires forall e :: e in events && e.Compact? ==> e.key != c.key
    ensures var (d, answer) := Handle(s, c, local);
      var later := SatRun(d, events);
      Handle(later, c, again) == (later, Some(Response(c.key, DUPLICATE(answer.value.result), false, answer.value.result)))
  {
    NewCommandOutcome(s, c, local);
    NewActIsSeen(s, c, local);
    var d := Handle(s, c, local).0;
    RecordStays(d, events, c.key);
    SeenCommandOutcome(SatRun(d, events), c, again);
    hide Handle, SatRun;
  }

  /** A record can be compacted exactly when it is final: executed, rejected or failed, or dispatched with all its work over. */
  lemma CompactableIff(s: Sat, k: Key, relatedTerminal: bool)
    requires k in s.journal.full
    ensures var d, state := SatStep(s, Compact(k, relatedTerminal)), s.journal.full[k].state;
      && (d.journal.full != s.journal.full <==> state != RECORD_ACCEPTED && (state != DISPATCHED || relatedTerminal))
      && (d.journal.full != s.journal.full ==>
            k !in d.journal.full && k in d.journal.gone
            && forall j :: j != k ==> (Seen(d.journal, j) <==> Seen(s.journal, j)) && (j in d.journal.full <==> j in s.journal.full))
  {
  }

  predicate NeverCrashes(events: seq<SatEvent>) {
    forall e :: e in events && e.Deliver? ==> !e.local.crashes
  }

  /** All keys acted on are on record and pairwise different. */
  ghost predicate StrictlyOnce(s: Sat) {
    && (forall i :: 0 <= i < |s.acted| ==> Seen(s.journal, s.acted[i].key))
    && (forall i, j :: 0 <= i < j < |s.acted| ==> s.acted[i].key != s.acted[j].key)
  }

  lemma StepKeepsStrict(s: Sat, ev: SatEvent)
    requires StrictlyOnce(s) && (ev.Deliver? ==> !ev.local.crashes)
    ensures StrictlyOnce(SatStep(s, ev))
  {
    forall i | 0 <= i < |s.acted| ensures Seen(SatStep(s, ev).journal, s.acted[i].key) {
      SatStepRemembers(s, ev, s.acted[i].key);
    }
    if ev.Deliver? {
      NewActIsSeen(s, ev.command, ev.local);
      if SatStep(s, ev).acted != s.acted {
        NewActIsSeenUnlessCrashed(s, ev.command, ev.local);
      }
    }
    hide Handle, Seen, Compacted;
  }

  lemma NewActIsSeenUnlessCrashed(s: Sat, c: TcCommand, local: Local)
    requires !local.crashes && Handle(s, c, local).0.acted != s.acted
    ensures Seen(Handle(s, c, local).0.journal, c.key)
  {
  }

  /** If no cancel handler dies between acting and recording, every key is acted on at most once. */
  lemma {:induction false} WithoutCrashesStrictlyOnce(s: Sat, events: seq<SatEvent>)
    requires StrictlyOnce(s) && NeverCrashes(events)
    ensures StrictlyOnce(SatRun(s, events))
    decreases |events|
  {
    hide StrictlyOnce, SatStep;
    if events != [] {
      StepKeepsStrict(s, events[0]);
      WithoutCrashesStrictlyOnce(SatStep(s, events[0]), events[1..]);
    }
  }

  /**
   A further copy of a handled command acts again exactly when the first one was a cancel command
   whose handler acted and died before recording it.
   */
  lemma CopyActsAgainIffCrashed(s: Sat, c: TcCommand, local: Local, again: Local)
    requires c.target == s.me && again.accepts
    ensures var once := Handle(s, c, local).0;
      Handle(once, c, again).0.acted != once.acted <==>
        !Seen(s.journal, c.key) && ActsFirst(c.opcode) && local.accepts && local.crashes
  {
    var once := Handle(s, c, local).0;
    if Seen(once.journal, c.key) {
      SeenIsNotNew(once, c, again);
    }
    hide Index;
  }

  lemma SeenIsNotNew(s: Sat, c: TcCommand, local: Local)
    requires Seen(s.journal, c.key)
    ensures Handle(s, c, local).0.acted == s.acted
  {
  }

  /** A cancel handler that dies before recording acts again on the next copy. */
  lemma CrashedCancelActsTwice(s: Sat, c: TcCommand, local: Local)
    requires c.target == s.me && !Seen(s.journal, c.key) && ActsFirst(c.opcode) && local.accepts && local.crashes
    ensures var once := Handle(s, c, local).0;
      var twice := Handle(once, c, local.(crashes := false)).0;
      twice.acted == s.acted + [c] + [c] && Seen(twice.journal, c.key)
  {
  }

  /**
   A command meant for another satellite is recorded before any lookup. It changes what a later
   lookup of its key answers exactly when no full record of the key is there, also when the key
   had been retired; the digest then decides between DUPLICATE and CONFLICT.
   */
  lemma MisdirectedChangesLookupIff(s: Sat, wrong: TcCommand, local: Local, digest: seq<byte>)
    requires wrong.target != s.me
    ensures var after := Handle(s, wrong, local).0;
      && after.acted == s.acted
      && (Find(after.journal, wrong.key, digest) != Find(s.journal, wrong.key, digest) <==> wrong.key !in s.journal.full)
      && (wrong.key !in s.journal.full ==>
            Find(after.journal, wrong.key, digest) == if digest == wrong.digest then DUPLICATE(local.refusal) else CONFLICT)
      && (forall k :: k != wrong.key ==> Find(after.journal, k, digest) == Find(s.journal, k, digest))
  {
  }

  /**
   The digest covers schema version, opcode and arguments but not the target, so the same command
   sent to both satellites has one digest: here the right copy is answered with the refusal of the
   misdirected one, and is not executed.
   */
  lemma MisdirectedCopyBlocksTheKey(s: Sat, right: TcCommand, other: nat, l1: Local, l2: Local)
    requires right.target == s.me && other != s.me && right.key !in s.journal.full
    ensures var after := Handle(s, right.(target := other), l1).0;
      Handle(after, right, l2) == (after, Some(Response(right.key, DUPLICATE(l1.refusal), false, l1.refusal)))
      && after.acted == s.acted
  {
    MisdirectedChangesLookupIff(s, right.(target := other), l1, right.digest);
  }

  // ---------------------------------------------------------------- the handler in place

  class CloudPayload {
    const me: nat
    const journal: SatelliteJournal
    var config: Config
    ghost var acted: seq<TcCommand>
    ghost var commits: seq<nat>

    ghost function Value(): Sat
      reads this, journal
    {
      Sat(me, Meaning(journal.Value()), config, acted, commits)
    }

    ghost predicate Valid()
      reads this, journal
    {
      journal.Valid()
    }

    constructor (me: nat, config: Config)
      ensures Valid() && fresh(journal) && Value() == Sat(me, Ledger(map[], iset{}), config, [], [])
    {
      this.me, this.config := me, config;
      journal := new SatelliteJournal();
      acted, commits := [], [];
    }

    /** Records a command under its key, or reports that the insert failed. */
    method RecordOutcome(c: TcCommand, state: RecordState, result: seq<byte>) returns (r: Result<(), JournalError>)
      requires Valid()
      modifies journal
      ensures Valid()
      ensures r.Err? <==> c.key in old(Value()).journal.full
      ensures r.Err? ==> Value() == old(Value())
      ensures r.Ok? ==> Value() == Put(old(Value()), c, state, result)
    {
      r := journal.RecordCommand(c.key, RecordOf(c, state, result));
    }

    method ApplyConfig(c: TcCommand, local: Local) returns (response: Option<Response>)
      requires Valid() && !Seen(Value().journal, c.key)
      modifies this, journal
      ensures Valid()
      ensures (Value(), response) == SetConfig(old(Value()), c, local)
    {
      var next := NextConfig(config, c.modelBp, c.coverageBp);
      if !local.specMatches || config.epoch != c.expectedEpoch || config.revision != c.expectedRevision || next.None? {
        var rejected := RecordOutcome(c, COMMAND_REJECTED, local.refusal);
        return Some(Response(c.key, NEW, false, local.refusal));
      }
      var recorded := RecordOutcome(c, RECORD_EXECUTED, local.result);
      acted, commits := acted + [c], commits + [Index(config)];
      config := next.value;
      response := Some(Response(c.key, NEW, true, local.result));
    }

    /** Target check, lookup, then the opcode's work. */
    method HandleCommand(c: TcCommand, local: Local) returns (response: Option<Response>)
      requires Valid()
      modifies this, journal
      ensures Valid()
      ensures (Value(), response) == Handle(old(Value()), c, local)
    {
      if c.target != me {
        var rejected := RecordOutcome(c, COMMAND_REJECTED, local.refusal);
        return if rejected.Err? then None else Some(Response(c.key, NEW, false, local.refusal));
      }
      var found := journal.LookupRequest(c.key, c.digest);
      if found != NEW {
        return Some(Response(c.key, found, false, if found.DUPLICATE? then found.result else local.refusal));
      }
      if c.opcode == CLOUD_SET_CONFIG {
        response := ApplyConfig(c, local);
        return;
      }
      if c.opcode == UNASSIGNED || !local.accepts {
        var rejected := RecordOutcome(c, COMMAND_REJECTED, local.refusal);
        return Some(Response(c.key, NEW, false, local.refusal));
      }
      if ActsFirst(c.opcode) {
        acted := acted + [c];
        if local.crashes {
          return None;
        }
        var recorded := RecordOutcome(c, local.state, local.result);
        return Some(Response(c.key, NEW, true, local.result));
      }
      var recorded := RecordOutcome(c, local.state, local.result);
      acted := acted + [c];
      response := Some(Response(c.key, NEW, true, local.result));
    }
  }
}
