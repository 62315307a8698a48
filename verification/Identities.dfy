/**
 Identities that must never come back: request keys, drawn from a random namespace and an
 increasing id, and telecommand sequence counts, which also survive resets.
 */
module Identities {
  import opened Bytes
  import OutboxModel
  import TmAllocator

  type Key = OutboxModel.Key

  const FIRST_ID: nat := 1
  const MAX_DRAWS: nat := 128

  datatype NamespaceState = ACTIVE | DRAINING | RETIRED

  datatype Namespace = Namespace(epoch: nat, next: nat, state: NamespaceState)

  datatype Meta = Meta(epoch: nat, ground: nat)

  datatype Allocator = Allocator(meta: Option<Meta>, namespaces: map<nat, Namespace>)

  datatype AllocError = NoFreshNamespace | StillDraining | Corrupt

  /** The i-th value of a random source. */
  type Draws = nat -> nat

  /** The first of at most `left` draws that is neither taken nor excluded. */
  function FirstFresh(draws: Draws, from: nat, left: nat, taken: set<nat>): Option<nat>
    decreases left
  {
    if left == 0 then None
    else if draws(from) !in taken then Some(draws(from))
    else FirstFresh(draws, from + 1, left - 1, taken)
  }

  lemma {:induction false} FreshIsFree(draws: Draws, from: nat, left: nat, taken: set<nat>)
    ensures FirstFresh(draws, from, left, taken).Some? ==> FirstFresh(draws, from, left, taken).value !in taken
    ensures FirstFresh(draws, from, left, taken).None? ==> forall i :: from <= i < from + left ==> draws(i) in taken
    decreases left
  {
    if left > 0 && draws(from) in taken {
      FreshIsFree(draws, from + 1, left - 1, taken);
    }
  }

  /** Random sources for an epoch, the first namespace and a rotation. */
  datatype Randomness = Randomness(epoch: Draws, ground: Draws, rotation: Draws)

  function Initialized(a: Allocator, r: Randomness): Result<Allocator, AllocError> {
    if a.meta.Some? then
      if a.meta.value.ground !in a.namespaces then Err(Corrupt)
      else
        var ns := a.namespaces[a.meta.value.ground];
        if ns.epoch != a.meta.value.epoch || ns.state == RETIRED || (ns.next > U32_MAX) != (ns.state == DRAINING) then Err(Corrupt) else Ok(a)
    else if a.namespaces != map[] then Err(Corrupt)
    else match FirstFresh(r.epoch, 0, MAX_DRAWS, {})
      case None => Err(NoFreshNamespace)
      case Some(epoch) =>
        match FirstFresh(r.ground, 0, MAX_DRAWS, {epoch})
        case None => Err(NoFreshNamespace)
        case Some(ground) => Ok(Allocator(Some(Meta(epoch, ground)), map[ground := Namespace(epoch, FIRST_ID, ACTIVE)]))
  }

  predicate InNamespace(live: set<Key>, ground: nat) {
    exists k :: k in live && k.ground == ground
  }

  /** An exhausted namespace gives way to a new one once none of its commands is unfinished. */
  function Rotated(a: Allocator, live: set<Key>, r: Randomness): Result<Allocator, AllocError>
    requires a.meta.Some? && a.meta.value.ground in a.namespaces
  {
    var old_ground := a.meta.value.ground;
    if a.namespaces[old_ground].next <= U32_MAX then Ok(a)
    else if InNamespace(live, old_ground) then Err(StillDraining)
    else match FirstFresh(r.rotation, 0, MAX_DRAWS, a.namespaces.Keys + {a.meta.value.epoch})
      case None => Err(NoFreshNamespace)
      case Some(ground) =>
        Ok(Allocator(Some(a.meta.value.(ground := ground)),
                     a.namespaces[old_ground := a.namespaces[old_ground].(state := RETIRED)][ground := Namespace(a.meta.value.epoch, FIRST_ID, ACTIVE)]))
  }

  function Taken(a: Allocator): (Allocator, Key)
    requires a.meta.Some? && a.meta.value.ground in a.namespaces
  {
    var ground := a.meta.value.ground;
    var id := a.namespaces[ground].next;
    (a.(namespaces := a.namespaces[ground := Namespace(a.namespaces[ground].epoch, id + 1, if id + 1 > U32_MAX then DRAINING else ACTIVE)]),
     OutboxModel.Key(ground, id))
  }

  function Allocate(a: Allocator, live: set<Key>, r: Randomness): Result<(Allocator, Key), AllocError> {
    match Initialized(a, r)
    case Err(e) => Err(e)
    case Ok(b) =>
      match Rotated(b, live, r)
      case Err(e) => Err(e)
      case Ok(c) => Ok(Taken(c))
  }

  /** The allocator, every key it ever issued, and the keys of unfinished commands. */
  datatype Ids = Ids(alloc: Allocator, issued: set<Key>, live: set<Key>)

  /** The active namespace accepts ids while any are left; all others are retired. */
  ghost predicate AllocInv(a: Allocator) {
    && (a.meta.None? ==> a.namespaces == map[])
    && (a.meta.Some? ==>
          && a.meta.value.ground in a.namespaces && a.namespaces[a.meta.value.ground].epoch == a.meta.value.epoch
          && (forall g :: g in a.namespaces ==> FIRST_ID <= a.namespaces[g].next <= U32_MODULUS)
          && (forall g :: g in a.namespaces && g != a.meta.value.ground ==> a.namespaces[g].state == RETIRED)
          && a.namespaces[a.meta.value.ground].state == (if a.namespaces[a.meta.value.ground].next > U32_MAX then DRAINING else ACTIVE))
  }

  ghost predicate IdsInv(s: Ids) {
    && AllocInv(s.alloc)
    && (forall k :: k in s.issued ==> k.ground in s.alloc.namespaces && FIRST_ID <= k.request < s.alloc.namespaces[k.ground].next)
    && (forall k :: k in s.live ==> k in s.issued && s.alloc.meta.Some? && k.ground == s.alloc.meta.value.ground)
  }

  datatype IdEvent =
    | Issue(source: Randomness)
    | Finish(key: Key)
    | Rotate(source: Randomness)

  function IdStep(s: Ids, ev: IdEvent): Ids {
    match ev
    case Issue(r) =>
      (match Allocate(s.alloc, s.live, r)
       case Err(_) => s
       case Ok((a, k)) => Ids(a, s.issued + {k}, s.live + {k}))
    case Finish(k) => s.(live := s.live - {k})
    case Rotate(r) =>
      (match Initialized(s.alloc, r)
       case Err(_) => s
       case Ok(b) => match Rotated(b, s.live, r) case Err(_) => s case Ok(c) => s.(alloc := c))
  }

  const NOTHING: Ids := Ids(Allocator(None, map[]), {}, {})

  lemma InitializedKeeps(s: Ids, r: Randomness)
    requires IdsInv(s) && Initialized(s.alloc, r).Ok?
    ensures IdsInv(s.(alloc := Initialized(s.alloc, r).value)) && Initialized(s.alloc, r).value.meta.Some?
  {
    hide FirstFresh;
  }

  lemma RotatedKeeps(s: Ids, r: Randomness)
    requires IdsInv(s) && s.alloc.meta.Some? && Rotated(s.alloc, s.live, r).Ok?
    ensures IdsInv(s.(alloc := Rotated(s.alloc, s.live, r).value)) && Rotated(s.alloc, s.live, r).value.meta.Some?
    ensures var a := Rotated(s.alloc, s.live, r).value;
      a.meta.value.ground in a.namespaces && a.namespaces[a.meta.value.ground].next <= U32_MAX
  {
    FreshIsFree(r.rotation, 0, MAX_DRAWS, s.alloc.namespaces.Keys + {s.alloc.meta.value.epoch});
    hide FirstFresh;
    if s.alloc.namespaces[s.alloc.meta.value.ground].next > U32_MAX {
      assert forall k :: k in s.live ==> InNamespace(s.live, k.ground);
    }
  }

  lemma TakenKeeps(s: Ids)
    requires IdsInv(s) && s.alloc.meta.Some? && s.alloc.namespaces[s.alloc.meta.value.ground].next <= U32_MAX
    ensures var (a, k) := Taken(s.alloc);
      IdsInv(Ids(a, s.issued + {k}, s.live + {k})) && k !in s.issued && FIRST_ID <= k.request <= U32_MAX
  {
  }

  lemma IdStepKeepsInv(s: Ids, ev: IdEvent)
    requires IdsInv(s)
    ensures IdsInv(IdStep(s, ev))
    ensures s.issued <= IdStep(s, ev).issued
    ensures ev.Issue? && Allocate(s.alloc, s.live, ev.source).Ok? ==> Allocate(s.alloc, s.live, ev.source).value.1 !in s.issued
  {
    if ev.Finish? {
    } else if Initialized(s.alloc, ev.source).Ok? {
      InitializedKeeps(s, ev.source);
      var b := s.(alloc := Initialized(s.alloc, ev.source).value);
      if Rotated(b.alloc, s.live, ev.source).Ok? {
        RotatedKeeps(b, ev.source);
        if ev.Issue? {
          TakenKeeps(b.(alloc := Rotated(b.alloc, s.live, ev.source).value));
        }
      }
    }
    hide Initialized, Rotated, Taken, AllocInv;
  }

  function IdRun(s: Ids, events: seq<IdEvent>): Ids
    decreases |events|
  {
    if events == [] then s else IdRun(IdStep(s, events[0]), events[1..])
  }

  lemma {:induction false} IdRunKeepsInv(s: Ids, events: seq<IdEvent>)
    requires IdsInv(s)
    ensures IdsInv(IdRun(s, events)) && s.issued <= IdRun(s, events).issued
    decreases |events|
  {
    hide IdsInv, IdStep;
    if events != [] {
      IdStepKeepsInv(s, events[0]);
      IdRunKeepsInv(IdStep(s, events[0]), events[1..]);
    }
  }

  /** No request key is issued twice, across exhaustion, rotation and retirement; unfinished commands share the active namespace. */
  lemma KeysNeverRepeat(events: seq<IdEvent>, r: Randomness)
    ensures var s := IdRun(NOTHING, events);
      && (Allocate(s.alloc, s.live, r).Ok? ==> Allocate(s.alloc, s.live, r).value.1 !in s.issued)
      && (forall k :: k in s.live ==> s.alloc.meta.Some? && k.ground == s.alloc.meta.value.ground)
  {
    IdRunKeepsInv(NOTHING, events);
    IdStepKeepsInv(IdRun(NOTHING, events), Issue(r));
    hide IdRun, Allocate;
  }

  /** A draw is found exactly when one of those allowed is free, and it is the first such. */
  lemma {:induction false} FreshIsFirst(draws: Draws, from: nat, left: nat, taken: set<nat>, i: nat)
    requires i < left && draws(from + i) !in taken && forall j :: from <= j < from + i ==> draws(j) in taken
    ensures FirstFresh(draws, from, left, taken) == Some(draws(from + i))
    decreases left
  {
    if i > 0 {
      assert draws(from) in taken;
      FreshIsFirst(draws, from + 1, left - 1, taken, i - 1);
    }
  }

  lemma {:induction false} FoundAmongDraws(draws: Draws, from: nat, left: nat, taken: set<nat>)
    ensures FirstFresh(draws, from, left, taken).Some? <==> exists i :: from <= i < from + left && draws(i) !in taken
    decreases left
  {
    if left > 0 && draws(from) in taken {
      FoundAmongDraws(draws, from + 1, left - 1, taken);
    }
  }

  /**
   An allocator that was set up passes unchanged exactly when its namespace is on record under its
   epoch, draining if it is used up and active if not; anything else is corrupt.
   */
  lemma SetUpPassesIff(a: Allocator, r: Randomness)
    requires a.meta.Some?
    ensures var ground := a.meta.value.ground;
      Initialized(a, r) == Ok(a) <==>
        ground in a.namespaces && a.namespaces[ground].epoch == a.meta.value.epoch
        && a.namespaces[ground].state == (if a.namespaces[ground].next > U32_MAX then DRAINING else ACTIVE)
    ensures Initialized(a, r) != Ok(a) ==> Initialized(a, r) == Err(Corrupt)
  {
  }

  /**
   A first use with leftover namespaces is corrupt. Otherwise it takes the first epoch drawn and
   fails exactly when all draws for the namespace are that epoch too; what it sets up is one active
   namespace, other than the epoch, with all its ids left.
   */
  lemma FirstUse(a: Allocator, r: Randomness)
    requires a.meta.None?
    ensures a.namespaces != map[] <==> Initialized(a, r) == Err(Corrupt)
    ensures Initialized(a, r) == Err(NoFreshNamespace) <==>
      a.namespaces == map[] && forall i :: 0 <= i < MAX_DRAWS ==> r.ground(i) == r.epoch(0)
    ensures Initialized(a, r).Ok? ==> var b := Initialized(a, r).value;
      && b.meta.Some? && b.meta.value.epoch == r.epoch(0) && b.meta.value.ground != r.epoch(0)
      && b.namespaces.Keys == {b.meta.value.ground}
      && b.namespaces[b.meta.value.ground] == Namespace(r.epoch(0), 1, ACTIVE)
  {
    FreshIsFirst(r.epoch, 0, MAX_DRAWS, {}, 0);
    FoundAmongDraws(r.ground, 0, MAX_DRAWS, {r.epoch(0)});
    FreshIsFree(r.ground, 0, MAX_DRAWS, {r.epoch(0)});
    hide FirstFresh;
  }

  /**
   A rotation changes something exactly when the namespace is used up, none of its commands is
   unfinished, and one of the draws is neither a namespace so far nor the epoch. It retires that
   namespace alone and starts a new one of the same epoch at the first id.
   */
  lemma RotatesIff(a: Allocator, live: set<Key>, r: Randomness)
    requires AllocInv(a) && a.meta.Some?
    ensures var old_ground := a.meta.value.ground;
      var used_up := a.namespaces[old_ground].next == U32_MODULUS;
      && (Rotated(a, live, r) == Ok(a) <==> !used_up)
      && (Rotated(a, live, r) == Err(StillDraining) <==> used_up && exists k :: k in live && k.ground == old_ground)
      && (Rotated(a, live, r).Ok? && Rotated(a, live, r) != Ok(a) <==>
            && used_up && (forall k :: k in live ==> k.ground != old_ground)
            && exists i :: 0 <= i < MAX_DRAWS && r.rotation(i) !in a.namespaces && r.rotation(i) != a.meta.value.epoch)
    ensures Rotated(a, live, r).Ok? && Rotated(a, live, r) != Ok(a) ==>
      var b, old_ground := Rotated(a, live, r).value, a.meta.value.ground;
      && b.meta.Some? && b.meta.value.epoch == a.meta.value.epoch && b.meta.value.ground !in a.namespaces
      && b.namespaces.Keys == a.namespaces.Keys + {b.meta.value.ground}
      && b.namespaces[b.meta.value.ground] == Namespace(a.meta.value.epoch, 1, ACTIVE)
      && (forall g :: g in a.namespaces && g != old_ground ==> b.namespaces[g] == a.namespaces[g])
      && b.namespaces[old_ground].state == RETIRED && b.namespaces[old_ground].next == U32_MODULUS
  {
    var taken := a.namespaces.Keys + {a.meta.value.epoch};
    FoundAmongDraws(r.rotation, 0, MAX_DRAWS, taken);
    FreshIsFree(r.rotation, 0, MAX_DRAWS, taken);
    hide FirstFresh;
  }

  /** The keys of one namespace are handed out in order of their ids, and the last one leaves it draining. */
  lemma NextIdIsTaken(a: Allocator, live: set<Key>, r: Randomness)
    requires AllocInv(a) && a.meta.Some? && a.namespaces[a.meta.value.ground].next <= U32_MAX
    ensures Allocate(a, live, r).Ok?
    ensures var (b, k) := Allocate(a, live, r).value;
      var ground := a.meta.value.ground;
      && k.ground == ground && k.request == a.namespaces[ground].next
      && b.meta == a.meta && b.namespaces.Keys == a.namespaces.Keys
      && (forall g :: g in a.namespaces && g != ground ==> b.namespaces[g] == a.namespaces[g])
      && b.namespaces[ground].next == k.request + 1
      && (b.namespaces[ground].state == DRAINING <==> k.request == U32_MAX)
  {
    hide FirstFresh;
  }

  /** The first key of all is id 1 of the namespace set up for it. */
  lemma FirstKeyIsIssued(r: Randomness)
    requires exists i :: 0 <= i < MAX_DRAWS && r.ground(i) != r.epoch(0)
    ensures var s := IdRun(NOTHING, [Issue(r)]);
      && s.alloc.meta.Some? && s.alloc.meta.value.ground != r.epoch(0)
      && s.issued == {OutboxModel.Key(s.alloc.meta.value.ground, 1)} == s.live
  {
    FirstUse(NOTHING.alloc, r);
    assert [Issue(r)][1..] == [];
    hide FirstFresh;
  }

  /**
   A used-up namespace with one unfinished command issues nothing; once that one is finished the next
   key is id 1 of a new namespace, whether it is asked for at once or after a rotation.
   */
  lemma LastOneOutOpensTheNext(s: Ids, k: Key, r: Randomness)
    requires IdsInv(s) && s.live == {k} && s.alloc.namespaces[k.ground].next == U32_MODULUS
    requires exists i :: 0 <= i < MAX_DRAWS && r.rotation(i) !in s.alloc.namespaces && r.rotation(i) != s.alloc.meta.value.epoch
    ensures IdStep(s, Issue(r)) == s
    ensures var d := IdRun(s, [Finish(k), Issue(r)]);
      && d.alloc.meta.Some? && d.alloc.meta.value.ground !in s.alloc.namespaces
      && d.live == {OutboxModel.Key(d.alloc.meta.value.ground, 1)} && d.issued == s.issued + d.live
    ensures IdRun(s, [Finish(k), Rotate(r), Issue(r)]) == IdRun(s, [Finish(k), Issue(r)])
  {
    var free := s.(live := {});
    assert s.alloc.meta.Some? && k.ground == s.alloc.meta.value.ground;
    SetUpPassesIff(s.alloc, r);
    RotatesIff(s.alloc, {k}, r);
    RotatesIff(s.alloc, {}, r);
    assert IdStep(s, Finish(k)) == free;
    var b := Rotated(s.alloc, {}, r).value;
    SetUpPassesIff(b, r);
    hide FirstFresh, Initialized, Rotated;
    assert Allocate(s.alloc, {}, r) == Ok(Taken(b));
    var turned := IdStep(free, Rotate(r));
    assert turned == free.(alloc := b);
    assert Rotated(b, {}, r) == Ok(b) by { RotatesIff(b, {}, r); }
    assert Allocate(b, {}, r) == Ok(Taken(b));
    assert IdStep(turned, Issue(r)) == IdStep(free, Issue(r));
    RunOfTwo(s, Finish(k), Issue(r));
    RunOfThree(s, Finish(k), Rotate(r), Issue(r));
    hide IdStep, IdRun;
  }

  lemma RunOfTwo(s: Ids, a: IdEvent, b: IdEvent)
    ensures IdRun(s, [a, b]) == IdStep(IdStep(s, a), b)
  {
    hide IdStep;
    assert [a, b][1..] == [b] && [b][1..] == [];
    assert IdRun(IdStep(s, a), [b]) == IdRun(IdStep(IdStep(s, a), b), []);
  }

  lemma RunOfThree(s: Ids, a: IdEvent, b: IdEvent, c: IdEvent)
    ensures IdRun(s, [a, b, c]) == IdStep(IdStep(IdStep(s, a), b), c)
  {
    hide IdStep;
    assert [a, b, c][1..] == [b, c];
    RunOfTwo(IdStep(s, a), b, c);
  }

  class RequestKeyAllocator {
    var meta: Option<Meta>
    var namespaces: map<nat, Namespace>

    function Value(): Allocator
      reads this
    {
      Allocator(meta, namespaces)
    }

    /** Draws until a value is free, at most 128 times. */
    method NewUnique(draws: Draws, taken: set<nat>) returns (fresh_value: Option<nat>)
      ensures fresh_value == FirstFresh(draws, 0, MAX_DRAWS, taken)
    {
      for i := 0 to MAX_DRAWS
        invariant FirstFresh(draws, 0, MAX_DRAWS, taken) == FirstFresh(draws, i, MAX_DRAWS - i, taken)
      {
        var candidate := draws(i);
        if candidate !in taken {
          return Some(candidate);
        }
      }
      fresh_value := None;
    }

    method InitializeIfNeeded(r: Randomness) returns (failed: Option<AllocError>)
      modifies this
      ensures var spec := Initialized(old(Value()), r);
        && (spec.Ok? ==> failed.None? && Value() == spec.value)
        && (spec.Err? ==> failed == Some(spec.error) && Value() == old(Value()))
    {
      hide FirstFresh;
      if meta.Some? {
        var sound := meta.value.ground in namespaces && namespaces[meta.value.ground].epoch == meta.value.epoch
          && namespaces[meta.value.ground].state != RETIRED
          && (namespaces[meta.value.ground].next > U32_MAX) == (namespaces[meta.value.ground].state == DRAINING);
        return if sound then None else Some(Corrupt);
      }
      if namespaces != map[] {
        return Some(Corrupt);
      }
      var epoch := NewUnique(r.epoch, {});
      if epoch.None? {
        return Some(NoFreshNamespace);
      }
      var ground := NewUnique(r.ground, {epoch.value});
      if ground.None? {
        return Some(NoFreshNamespace);
      }
      meta := Some(Meta(epoch.value, ground.value));
      namespaces := map[ground.value := Namespace(epoch.value, FIRST_ID, ACTIVE)];
      failed := None;
    }

    method RotateIfDrained(live: set<Key>, r: Randomness) returns (failed: Option<AllocError>)
      requires meta.Some? && meta.value.ground in namespaces
      modifies this
      ensures var spec := Rotated(old(Value()), live, r);
        && (spec.Ok? ==> failed.None? && Value() == spec.value)
        && (spec.Err? ==> failed == Some(spec.error) && Value() == old(Value()))
    {
      hide FirstFresh;
      var old_ground := meta.value.ground;
      if namespaces[old_ground].next <= U32_MAX {
        return None;
      }
      if InNamespace(live, old_ground) {
        return Some(StillDraining);
      }
      var ground := NewUnique(r.rotation, namespaces.Keys + {meta.value.epoch});
      if ground.None? {
        return Some(NoFreshNamespace);
      }
      namespaces := namespaces[old_ground := namespaces[old_ground].(state := RETIRED)][ground.value := Namespace(meta.value.epoch, FIRST_ID, ACTIVE)];
      meta := Some(meta.value.(ground := ground.value));
      failed := None;
    }

    /** One allocation: set up if needed, rotate if drained, then the next id; a refusal changes nothing. */
    method AllocateKey(live: set<Key>, r: Randomness) returns (key: Result<Key, AllocError>)
      modifies this
      ensures var spec := Allocate(old(Value()), live, r);
        && (spec.Ok? ==> Value() == spec.value.0 && key == Ok(spec.value.1))
        && (spec.Err? ==> Value() == old(Value()) && key == Err(spec.error))
    {
      hide FirstFresh;
      var oldMeta, oldNamespaces := meta, namespaces;
      var failed := InitializeIfNeeded(r);
      if failed.Some? {
        return Err(failed.value);
      }
      failed := RotateIfDrained(live, r);
      if failed.Some? {
        meta, namespaces := oldMeta, oldNamespaces;
        return Err(failed.value);
      }
      var ground := meta.value.ground;
      var id := namespaces[ground].next;
      namespaces := namespaces[ground := Namespace(namespaces[ground].epoch, id + 1, if id + 1 > U32_MAX then DRAINING else ACTIVE)];
      key := Ok(OutboxModel.Key(ground, id));
    }
  }

  // ---------------------------------------------------------------- telecommand sequence counts

  datatype TcEvent = Draw | Reset

  predicate Refused(c: TmAllocator.Counter, ev: TcEvent) {
    if ev.Draw? then TmAllocator.Exhausted(c, TmAllocator.PACKET_MODULUS) else c.epoch >= U32_MAX
  }

  /** A draw takes the next count; a reset starts a new epoch at zero. */
  function TcStep(c: TmAllocator.Counter, ev: TcEvent): (TmAllocator.Counter, Option<TmAllocator.Drawn>) {
    if Refused(c, ev) then (c, None)
    else match ev
      case Draw => var (d, next) := TmAllocator.Draw(c, TmAllocator.PACKET_MODULUS); (next, Some(d))
      case Reset => (TmAllocator.Counter(0, c.epoch + 1), None)
  }

  /** The counts handed out by a run of draws and resets. */
  function Counts(c: TmAllocator.Counter, events: seq<TcEvent>): seq<TmAllocator.Drawn>
    decreases |events|
  {
    if events == [] then []
    else
      var (next, d) := TcStep(c, events[0]);
      (if d.Some? then [d.value] else []) + Counts(next, events[1..])
  }

  function Position(d: TmAllocator.Drawn): nat {
    TmAllocator.Unwrapped(d, TmAllocator.PACKET_MODULUS)
  }

  lemma TcStepAdvances(c: TmAllocator.Counter, ev: TcEvent)
    requires TmAllocator.CounterInv(c, TmAllocator.PACKET_MODULUS)
    ensures var (next, d) := TcStep(c, ev);
      && TmAllocator.CounterInv(next, TmAllocator.PACKET_MODULUS)
      && TmAllocator.Taken(c, TmAllocator.PACKET_MODULUS) <= TmAllocator.Taken(next, TmAllocator.PACKET_MODULUS)
      && (d.Some? ==> TmAllocator.Taken(c, TmAllocator.PACKET_MODULUS) <= Position(d.value)
                      < TmAllocator.Taken(next, TmAllocator.PACKET_MODULUS))
  {
    if ev.Draw? && !Refused(c, ev) {
      TmAllocator.DrawCounts(c, TmAllocator.PACKET_MODULUS);
    }
  }

  /** Across rollover and reset the (epoch, sequence) pairs of one APID only go up, so none comes back. */
  lemma {:induction false} CountsNeverRepeat(c: TmAllocator.Counter, events: seq<TcEvent>)
    requires TmAllocator.CounterInv(c, TmAllocator.PACKET_MODULUS)
    ensures forall i :: 0 <= i < |Counts(c, events)| ==> TmAllocator.Taken(c, TmAllocator.PACKET_MODULUS) <= Position(Counts(c, events)[i])
    ensures forall i, j :: 0 <= i < j < |Counts(c, events)| ==> Position(Counts(c, events)[i]) < Position(Counts(c, events)[j])
    decreases |events|
  {
    if events != [] {
      TcStepAdvances(c, events[0]);
      hide TcStep, Position, TmAllocator.Taken, TmAllocator.CounterInv;
      CountsNeverRepeat(TcStep(c, events[0]).0, events[1..]);
    }
  }

  /** After a reset the counts start over at zero in the next epoch; in the last epoch a reset is refused and changes no count. */
  lemma ResetStartsOver(c: TmAllocator.Counter, events: seq<TcEvent>)
    ensures c.epoch < U32_MAX ==> Counts(c, [Reset, Draw]) == [TmAllocator.Drawn(0, c.epoch + 1)]
    ensures c.epoch >= U32_MAX ==> Counts(c, [Reset] + events) == Counts(c, events)
  {
    assert [Reset, Draw][1..] == [Draw] && [Draw][1..] == [];
    assert ([Reset] + events)[1..] == events;
  }

  /** One row of the sequence table, for a spacecraft and an APID. */
  class TcSequenceRow {
    var nextSequence: nat
    var epoch: nat

    function Value(): TmAllocator.Counter
      reads this
    {
      TmAllocator.Counter(nextSequence, epoch)
    }

    constructor ()
      ensures Value() == TmAllocator.Counter(0, 0)
    {
      nextSequence, epoch := 0, 0;
    }

    /** The next count; at the modulus the count starts over in the next epoch. */
    method AllocateSequence() returns (r: Option<TmAllocator.Drawn>)
      requires TmAllocator.CounterInv(Value(), TmAllocator.PACKET_MODULUS)
      modifies this
      ensures (Value(), r) == TcStep(old(Value()), Draw)
      ensures r.Some? ==> Position(r.value) == old(TmAllocator.Taken(Value(), TmAllocator.PACKET_MODULUS))
    {
      if nextSequence == TmAllocator.PACKET_MODULUS {
        if epoch == U32_MAX {
          return None;
        }
        epoch, nextSequence := epoch + 1, 1;
        return Some(TmAllocator.Drawn(0, epoch));
      }
      nextSequence := nextSequence + 1;
      r := Some(TmAllocator.Drawn(nextSequence - 1, epoch));
    }

    method ResetSequence() returns (ok: bool)
      requires TmAllocator.CounterInv(Value(), TmAllocator.PACKET_MODULUS)
      modifies this
      ensures Value() == TcStep(old(Value()), Reset).0
      ensures ok <==> old(epoch) < U32_MAX
    {
      ok := epoch < U32_MAX;
      if ok {
        epoch, nextSequence := epoch + 1, 0;
      }
    }
  }
}
