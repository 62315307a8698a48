/**
 The event log, its live subscribers, and the hand-over from replay to live delivery.
 Event ids are taken from one cursor; a client first gets a replay up to a snapshot id and
 then the later events from its bounded queue.
 */
module Realtime {
  import opened Bytes

  /** Retained ids are oldest, oldest + 1, ..., next - 1. */
  datatype Log = Log(oldest: nat, next: nat)

  datatype Limits = Limits(maxEvents: nat, maxBytes: nat, size: nat -> nat)

  datatype Client = Client(
    start: nat, asOf: nat, replay: seq<nat>, drained: seq<nat>, queue: seq<nat>, bytes: nat, closed: bool)

  datatype Hub = Hub(log: Log, published: nat, floor: nat, clients: map<nat, Client>, nextClient: nat)

  /** a, a + 1, ..., b - 1. */
  function Range(a: nat, b: nat): (r: seq<nat>)
    ensures |r| == if a < b then b - a else 0
    ensures forall i :: 0 <= i < |r| ==> r[i] == a + i
    decreases if a < b then b - a else 0
  {
    if a < b then Range(a, b - 1) + [b - 1] else []
  }

  function SizeOf(queue: seq<nat>, size: nat -> nat): nat {
    if queue == [] then 0 else size(queue[0]) + SizeOf(queue[1..], size)
  }

  lemma {:induction false} SizeOfConcat(a: seq<nat>, b: seq<nat>, size: nat -> nat)
    ensures SizeOf(a + b, size) == SizeOf(a, size) + SizeOf(b, size)
  {
    if a == [] {
      assert a + b == b;
    } else {
      assert (a + b)[1..] == a[1..] + b;
      SizeOfConcat(a[1..], b, size);
    }
  }

  /** The highest retained id, zero when nothing is retained. */
  function Latest(l: Log): nat {
    if l.oldest < l.next then l.next - 1 else 0
  }

  function Max(a: nat, b: nat): nat {
    if a < b then b else a
  }

  /** At most `limit` retained ids after a cursor. */
  function ListAfter(l: Log, cursor: Option<nat>, limit: nat): seq<nat> {
    var from := if cursor.Some? then Max(cursor.value + 1, l.oldest) else l.oldest;
    Range(from, if from + limit < l.next then from + limit else l.next)
  }

  function UpTo(ids: seq<nat>, bound: nat): seq<nat> {
    if ids == [] then []
    else UpTo(ids[..|ids| - 1], bound) + (if ids[|ids| - 1] <= bound then [ids[|ids| - 1]] else [])
  }

  /** The first id a new client is owed. */
  function FirstOwed(h: Hub, cursor: Option<nat>): nat {
    if h.log.oldest == h.log.next then h.published + 1
    else if cursor.Some? then Max(cursor.value + 1, h.log.oldest) else h.log.oldest
  }

  /** Snapshot id first, then the replay read, during which `late` more events may be appended. */
  function Connect(h: Hub, cursor: Option<nat>, late: nat, lim: Limits): Option<Client> {
    var asOf := Latest(h.log);
    if cursor.Some? && cursor.value + 1 < h.floor then None
    else if cursor.Some? && cursor.value > asOf then None
    else
      var records := ListAfter(h.log.(next := h.log.next + late), cursor, lim.maxEvents);
      var replay := UpTo(records, asOf);
      if (|replay| >= lim.maxEvents && records != [] && records[|records| - 1] < asOf) || SizeOf(replay, lim.size) > lim.maxBytes
      then None
      else Some(Client(FirstOwed(h, cursor), asOf, replay, [], [], 0, false))
  }

  /** A published event: old ones belong to the replay, a full queue ends the client. */
  function Offer(c: Client, id: nat, lim: Limits): Client {
    if c.closed || id <= c.asOf then c
    else if |c.queue| >= lim.maxEvents || c.bytes + lim.size(id) > lim.maxBytes then c.(queue := [], bytes := 0, closed := true)
    else c.(queue := c.queue + [id], bytes := c.bytes + lim.size(id))
  }

  function Drain(c: Client, limit: nat, lim: Limits): Client {
    var n := if limit < |c.queue| then limit else |c.queue|;
    var taken := SizeOf(c.queue[..n], lim.size);
    c.(drained := c.drained + c.queue[..n], queue := c.queue[n..], bytes := if taken <= c.bytes then c.bytes - taken else 0)
  }

  datatype HubEvent =
    | Append
    | Prune(upto: nat)
    | SetFloor(id: nat)
    | Publish
    | Join(cursor: Option<nat>, late: nat)
    | Take(client: nat, limit: nat)
    | Leave(client: nat)

  /** The client cannot take the event and is ended by it. */
  predicate TooSlow(c: Client, id: nat, lim: Limits) {
    !c.closed && Offer(c, id, lim).closed
  }

  /** Every client is offered the event; the slow ones are dropped. */
  function OfferAll(clients: map<nat, Client>, id: nat, lim: Limits): map<nat, Client> {
    map k | k in clients && !TooSlow(clients[k], id, lim) :: Offer(clients[k], id, lim)
  }

  function AfterAppends(h: Hub, late: nat): Hub {
    h.(log := h.log.(next := h.log.next + late))
  }

  function WithClient(h: Hub, c: Client): Hub {
    h.(clients := h.clients[h.nextClient := c], nextClient := h.nextClient + 1)
  }

  /** Events are published once each, in the order of their ids. */
  function HubStep(h: Hub, ev: HubEvent, lim: Limits): Hub {
    match ev
    case Append => h.(log := h.log.(next := h.log.next + 1))
    case Prune(upto) => if h.log.oldest <= upto <= h.log.next then h.(log := h.log.(oldest := upto)) else h
    case SetFloor(id) => h.(floor := id)
    case Publish =>
      if h.published + 1 < h.log.next then h.(published := h.published + 1, clients := OfferAll(h.clients, h.published + 1, lim)) else h
    case Join(cursor, late) =>
      var c := Connect(h, cursor, late, lim);
      if c.None? then AfterAppends(h, late) else WithClient(AfterAppends(h, late), c.value)
    case Take(k, limit) => if k in h.clients then h.(clients := h.clients[k := Drain(h.clients[k], limit, lim)]) else h
    case Leave(k) => h.(clients := map j | j in h.clients && j != k :: h.clients[j])
  }

  /**
   What a client has been handed and still holds is exactly the ids it is owed up to the later
   of its snapshot and the last published event, in order; the queue is within its bounds.
   */
  ghost predicate ClientInv(c: Client, h: Hub, lim: Limits) {
    && !c.closed
    && c.asOf < h.log.next
    && 1 <= c.start <= Max(c.asOf, h.published) + 1
    && c.replay + c.drained + c.queue == Range(c.start, Max(c.asOf, h.published) + 1)
    && c.bytes == SizeOf(c.queue, lim.size) <= lim.maxBytes
    && |c.queue| <= lim.maxEvents
  }

  ghost predicate HubInv(h: Hub, lim: Limits) {
    && 1 <= h.log.oldest <= h.log.next
    && h.published < h.log.next
    && (forall k :: k in h.clients ==> ClientInv(h.clients[k], h, lim))
  }

  const FRESH: Hub := Hub(Log(1, 1), 0, 1, map[], 1)

  lemma {:induction false} UpToRange(a: nat, b: nat, bound: nat)
    ensures UpTo(Range(a, b), bound) == Range(a, if b <= bound + 1 then b else bound + 1)
    decreases if a < b then b - a else 0
  {
    if a < b {
      assert Range(a, b)[..|Range(a, b)| - 1] == Range(a, b - 1);
      UpToRange(a, b - 1, bound);
    }
  }

  /** Where a listing starts. */
  function From(l: Log, cursor: Option<nat>): nat {
    if cursor.Some? then Max(cursor.value + 1, l.oldest) else l.oldest
  }

  /** A listing filtered by the snapshot id, when it is not cut short, reaches the snapshot id. */
  lemma FilteredListing(from: nat, next: nat, limit: nat, asOf: nat)
    requires 0 < limit && asOf < next
    ensures var records := Range(from, if from + limit < next then from + limit else next);
      var replay := UpTo(records, asOf);
      && replay == Range(from, if from + limit < asOf + 1 then from + limit else asOf + 1)
      && (!(|replay| >= limit && records != [] && records[|records| - 1] < asOf) ==> replay == Range(from, asOf + 1))
  {
    UpToRange(from, if from + limit < next then from + limit else next, asOf);
  }

  /** The replay reaches from the first owed id to the snapshot. */
  lemma ConnectReplaysAll(h: Hub, cursor: Option<nat>, late: nat, lim: Limits)
    requires HubInv(h, lim) && 0 < lim.maxEvents && Connect(h, cursor, late, lim).Some?
    ensures var c := Connect(h, cursor, late, lim).value;
      ClientInv(c, h.(log := h.log.(next := h.log.next + late)), lim)
  {
    assert 1 <= h.log.oldest <= h.log.next && h.published < h.log.next;
    hide HubInv, UpTo, Range, SizeOf, Connect, Max, FirstOwed, Latest;
    ConnectShape(h, cursor, late, lim);
    var c := Connect(h, cursor, late, lim).value;
    OwedIsListed(h, cursor, c.asOf);
    assert c.replay + [] + [] == c.replay;
    EmptyQueueSize(lim);
    LatestIsBelow(h.log);
  }

  lemma LatestIsBelow(l: Log)
    requires 1 <= l.oldest <= l.next
    ensures Latest(l) < l.next
  {
  }

  /** An accepted connection holds the snapshot id and a replay that is not cut short. */
  lemma ConnectShape(h: Hub, cursor: Option<nat>, late: nat, lim: Limits)
    requires Connect(h, cursor, late, lim).Some? && 0 < lim.maxEvents && 1 <= h.log.oldest <= h.log.next
    ensures var c := Connect(h, cursor, late, lim).value;
      && c == Client(FirstOwed(h, cursor), Latest(h.log), Range(From(h.log, cursor), Latest(h.log) + 1), [], [], 0, false)
      && (cursor.Some? ==> cursor.value <= Latest(h.log))
  {
    hide UpTo, Range, SizeOf, FirstOwed;
    FilteredListing(From(h.log, cursor), h.log.next + late, lim.maxEvents, Latest(h.log));
  }

  lemma EmptyQueueSize(lim: Limits)
    ensures SizeOf([], lim.size) == 0
  {
  }

  lemma OwedIsListed(h: Hub, cursor: Option<nat>, asOf: nat)
    requires 1 <= h.log.oldest <= h.log.next && h.published < h.log.next && asOf == Latest(h.log)
    requires cursor.Some? ==> cursor.value <= asOf
    ensures 1 <= FirstOwed(h, cursor) <= Max(asOf, h.published) + 1
    ensures Range(From(h.log, cursor), asOf + 1) == Range(FirstOwed(h, cursor), Max(asOf, h.published) + 1)
  {
  }

  lemma OfferKeepsClient(c: Client, h: Hub, lim: Limits)
    requires ClientInv(c, h, lim) && h.published + 1 < h.log.next
    requires !Offer(c, h.published + 1, lim).closed
    ensures ClientInv(Offer(c, h.published + 1, lim), h.(published := h.published + 1, clients := map[]), lim)
  {
    var id := h.published + 1;
    if id > c.asOf {
      SizeOfConcat(c.queue, [id], lim.size);
      assert SizeOf([id], lim.size) == lim.size(id);
      assert c.replay + c.drained + (c.queue + [id]) == (c.replay + c.drained + c.queue) + [id];
    }
  }

  lemma DrainKeepsClient(c: Client, h: Hub, limit: nat, lim: Limits)
    requires ClientInv(c, h, lim)
    ensures ClientInv(Drain(c, limit, lim), h, lim)
  {
    var n := if limit < |c.queue| then limit else |c.queue|;
    assert c.queue == c.queue[..n] + c.queue[n..];
    SizeOfConcat(c.queue[..n], c.queue[n..], lim.size);
    assert c.replay + (c.drained + c.queue[..n]) + c.queue[n..] == c.replay + c.drained + (c.queue[..n] + c.queue[n..]);
  }

  /** A client's promise reads the log's end and the publication cursor only. */
  lemma ClientReads(c: Client, h: Hub, g: Hub, lim: Limits)
    requires ClientInv(c, h, lim) && h.log.next <= g.log.next && h.published == g.published
    ensures ClientInv(c, g, lim)
  {
  }

  lemma PublishKeepsInv(h: Hub, lim: Limits)
    requires HubInv(h, lim)
    ensures HubInv(HubStep(h, Publish, lim), lim)
  {
    assert forall k :: k in h.clients ==> !h.clients[k].closed;
    hide ClientInv, Offer;
    if h.published + 1 < h.log.next {
      var g := HubStep(h, Publish, lim);
      forall k | k in g.clients ensures ClientInv(g.clients[k], g, lim) {
        OfferKeepsClient(h.clients[k], h, lim);
        ClientReads(g.clients[k], h.(published := h.published + 1, clients := map[]), g, lim);
      }
    }
  }

  lemma JoinKeepsInv(h: Hub, cursor: Option<nat>, late: nat, lim: Limits)
    requires HubInv(h, lim) && 0 < lim.maxEvents
    ensures HubInv(HubStep(h, Join(cursor, late), lim), lim)
  {
    hide ClientInv, Connect;
    var g := HubStep(h, Join(cursor, late), lim);
    if Connect(h, cursor, late, lim).Some? {
      ConnectReplaysAll(h, cursor, late, lim);
    }
    forall k | k in g.clients ensures ClientInv(g.clients[k], g, lim) {
      if k in h.clients && g.clients[k] == h.clients[k] {
        ClientReads(h.clients[k], h, g, lim);
      } else {
        ClientReads(g.clients[k], h.(log := h.log.(next := h.log.next + late)), g, lim);
      }
    }
  }

  lemma OtherKeepsInv(h: Hub, ev: HubEvent, lim: Limits)
    requires HubInv(h, lim) && !ev.Publish? && !ev.Join?
    ensures HubInv(HubStep(h, ev, lim), lim)
  {
    hide ClientInv, Drain;
    var g := HubStep(h, ev, lim);
    forall k | k in g.clients ensures ClientInv(g.clients[k], g, lim) {
      if ev.Take? && k == ev.client {
        DrainKeepsClient(h.clients[k], h, ev.limit, lim);
        ClientReads(g.clients[k], h, g, lim);
      } else {
        ClientReads(h.clients[k], h, g, lim);
      }
    }
  }

  lemma HubStepKeepsInv(h: Hub, ev: HubEvent, lim: Limits)
    requires HubInv(h, lim) && 0 < lim.maxEvents
    ensures HubInv(HubStep(h, ev, lim), lim)
  {
    hide HubInv, HubStep;
    match ev
    case Publish => PublishKeepsInv(h, lim);
    case Join(cursor, late) => JoinKeepsInv(h, cursor, late, lim);
    case _ => OtherKeepsInv(h, ev, lim);
  }

  function HubRun(h: Hub, events: seq<HubEvent>, lim: Limits): Hub
    decreases |events|
  {
    if events == [] then h else HubRun(HubStep(h, events[0], lim), events[1..], lim)
  }

  lemma {:induction false} HubRunKeepsInv(h: Hub, events: seq<HubEvent>, lim: Limits)
    requires HubInv(h, lim) && 0 < lim.maxEvents
    ensures HubInv(HubRun(h, events, lim), lim)
    decreases |events|
  {
    hide HubInv, HubStep;
    if events != [] {
      HubStepKeepsInv(h, events[0], lim);
      HubRunKeepsInv(HubStep(h, events[0], lim), events[1..], lim);
    }
  }

  /**
   For any interleaving of appending, publishing, pruning, connecting and draining: the replay,
   the drained and the queued events of every open client are exactly the ids it is owed, each
   once, with no gap, and its byte counter is the size of its queue.
   */
  lemma HandOverIsExactlyOnce(events: seq<HubEvent>, lim: Limits, k: nat)
    requires 0 < lim.maxEvents && k in HubRun(FRESH, events, lim).clients
    ensures var h := HubRun(FRESH, events, lim);
      var c := h.clients[k];
      && c.replay + c.drained + c.queue == Range(c.start, Max(c.asOf, h.published) + 1)
      && c.bytes == SizeOf(c.queue, lim.size) && c.bytes <= lim.maxBytes && |c.queue| <= lim.maxEvents
  {
    HubRunKeepsInv(FRESH, events, lim);
    hide HubRun;
  }

  // ---------------------------------------------------------------- who is served

  /** The ids a cursor asks for, up to the snapshot. */
  function Asked(h: Hub, cursor: Option<nat>): seq<nat> {
    Range(if cursor.Some? then Max(cursor.value + 1, h.log.oldest) else h.log.oldest, Latest(h.log) + 1)
  }

  /**
   A connection is accepted exactly when its cursor is neither older than retention nor ahead of
   the stream, and what it asks for fits the two limits of a client.
   */
  lemma ConnectAcceptedIff(h: Hub, cursor: Option<nat>, late: nat, lim: Limits)
    requires 0 < lim.maxEvents && 1 <= h.log.oldest <= h.log.next
    ensures Connect(h, cursor, late, lim).Some? <==>
      && (cursor.Some? ==> h.floor <= cursor.value + 1 && cursor.value <= Latest(h.log))
      && |Asked(h, cursor)| <= lim.maxEvents && SizeOf(Asked(h, cursor), lim.size) <= lim.maxBytes
    ensures Connect(h, cursor, late, lim).Some? ==> Connect(h, cursor, late, lim).value.replay == Asked(h, cursor)
  {
    AskedIsListed(h, cursor, late, lim);
    ConnectIs(h, cursor, late, lim);
    hide *;
  }

  lemma AskedIsListed(h: Hub, cursor: Option<nat>, late: nat, lim: Limits)
    requires 0 < lim.maxEvents && 1 <= h.log.oldest <= h.log.next
    ensures var records := Listed(From(h.log, cursor), h.log.next + late, lim.maxEvents);
      var replay := UpTo(records, Latest(h.log));
      && (|replay| >= lim.maxEvents && records != [] && records[|records| - 1] < Latest(h.log) <==> |Asked(h, cursor)| > lim.maxEvents)
      && (|Asked(h, cursor)| <= lim.maxEvents ==> replay == Asked(h, cursor))
  {
    var from, next := From(h.log, cursor), h.log.next + late;
    LatestIsBelow(h.log);
    ListingCut(from, next, lim.maxEvents, Latest(h.log));
    assert Asked(h, cursor) == Range(from, Latest(h.log) + 1);
    hide *;
  }

  /** The decision to accept a connection, and its replay. */
  lemma ConnectIs(h: Hub, cursor: Option<nat>, late: nat, lim: Limits)
    ensures var records := Listed(From(h.log, cursor), h.log.next + late, lim.maxEvents);
      var replay := UpTo(records, Latest(h.log));
      && (Connect(h, cursor, late, lim).Some? <==>
            && (cursor.Some? ==> h.floor <= cursor.value + 1 && cursor.value <= Latest(h.log))
            && !(|replay| >= lim.maxEvents && records != [] && records[|records| - 1] < Latest(h.log))
            && SizeOf(replay, lim.size) <= lim.maxBytes)
      && (Connect(h, cursor, late, lim).Some? ==> Connect(h, cursor, late, lim).value.replay == replay)
  {
    hide UpTo, SizeOf, FirstOwed, Latest, Range;
  }

  /** The listing of at most so many ids. */
  function Listed(from: nat, next: nat, limit: nat): seq<nat> {
    Range(from, if from + limit < next then from + limit else next)
  }

  /** The listing is cut short of the snapshot exactly when more is asked for than the limit; otherwise nothing is missing. */
  lemma ListingCut(from: nat, next: nat, limit: nat, asOf: nat)
    requires 0 < limit && asOf < next
    ensures var records, replay := Listed(from, next, limit), UpTo(Listed(from, next, limit), asOf);
      && ((|replay| >= limit && records != [] && records[|records| - 1] < asOf) <==> |Range(from, asOf + 1)| > limit)
      && (|Range(from, asOf + 1)| <= limit ==> replay == Range(from, asOf + 1))
  {
    FilteredListing(from, next, limit, asOf);
    hide UpTo;
  }

  /** A live event ends a client exactly when its queue is full in number or in bytes. */
  lemma OfferEndsIff(c: Client, id: nat, lim: Limits)
    requires !c.closed && c.asOf < id
    ensures Offer(c, id, lim).closed <==> |c.queue| >= lim.maxEvents || c.bytes + lim.size(id) > lim.maxBytes
    ensures !Offer(c, id, lim).closed ==> Offer(c, id, lim).queue == c.queue + [id] && Offer(c, id, lim).bytes == c.bytes + lim.size(id)
    ensures Offer(c, id, lim).closed ==> Offer(c, id, lim).queue == [] && Offer(c, id, lim).bytes == 0
    ensures Offer(c, id, lim).replay == c.replay && Offer(c, id, lim).drained == c.drained
  {
  }

  /** An event of the snapshot is not queued again, and a closed client takes nothing. */
  lemma OldEventsAreSkipped(c: Client, id: nat, lim: Limits)
    requires c.closed || id <= c.asOf
    ensures Offer(c, id, lim) == c
  {
  }

  /** A take hands out as many of the first events as there are, up to the limit. */
  lemma TakeOutcome(c: Client, limit: nat, lim: Limits)
    ensures var d, n := Drain(c, limit, lim), |Drain(c, limit, lim).drained| - |c.drained|;
      && 0 <= n <= limit && n <= |c.queue| && (n == limit || n == |c.queue|)
      && d.drained == c.drained + c.queue[..n] && d.queue == c.queue[n..]
  {
  }

  /** Publishing drops exactly the clients that cannot take the event; an accepted join and a leave concern their client only. */
  lemma HubOutcome(h: Hub, lim: Limits, cursor: Option<nat>, late: nat, k: nat)
    ensures h.published + 1 < h.log.next ==>
      var d := HubStep(h, Publish, lim);
      && d.published == h.published + 1
      && (forall j :: j in d.clients <==> j in h.clients && (h.clients[j].closed || !Offer(h.clients[j], h.published + 1, lim).closed))
      && (forall j :: j in d.clients ==> d.clients[j] == Offer(h.clients[j], h.published + 1, lim))
    ensures var d := HubStep(h, Join(cursor, late), lim);
      && d.log.next == h.log.next + late && d.log.oldest == h.log.oldest && d.published == h.published
      && (Connect(h, cursor, late, lim).None? ==> d.clients == h.clients && d.nextClient == h.nextClient)
      && (Connect(h, cursor, late, lim).Some? ==>
            d.clients == h.clients[h.nextClient := Connect(h, cursor, late, lim).value] && d.nextClient == h.nextClient + 1)
    ensures var d := HubStep(h, Leave(k), lim);
      k !in d.clients && forall j :: j != k ==> (j in d.clients <==> j in h.clients) && (j in h.clients ==> d.clients[j] == h.clients[j])
  {
    hide Connect, Offer;
  }

  // ---------------------------------------------------------------- what a client is owed

  /** Client numbers are handed out in order. */
  predicate Numbered(h: Hub) {
    forall k :: k in h.clients ==> k < h.nextClient
  }

  /** The client with this number, if it is still there, is the one that came with this start and snapshot. */
  predicate SameClient(h: Hub, k: nat, start: nat, asOf: nat, replay: seq<nat>) {
    && k < h.nextClient
    && (k in h.clients ==> h.clients[k].start == start && h.clients[k].asOf == asOf && h.clients[k].replay == replay)
  }

  lemma StepKeepsClient(h: Hub, ev: HubEvent, lim: Limits, k: nat, start: nat, asOf: nat, replay: seq<nat>)
    requires Numbered(h) && SameClient(h, k, start, asOf, replay)
    ensures Numbered(HubStep(h, ev, lim)) && SameClient(HubStep(h, ev, lim), k, start, asOf, replay)
  {
    hide Connect, SizeOf;
  }

  lemma {:induction false} RunKeepsClient(h: Hub, events: seq<HubEvent>, lim: Limits, k: nat, start: nat, asOf: nat, replay: seq<nat>)
    requires Numbered(h) && SameClient(h, k, start, asOf, replay)
    ensures SameClient(HubRun(h, events, lim), k, start, asOf, replay)
    decreases |events|
  {
    hide HubStep, Numbered, SameClient;
    if events != [] {
      StepKeepsClient(h, events[0], lim, k, start, asOf, replay);
      RunKeepsClient(HubStep(h, events[0], lim), events[1..], lim, k, start, asOf, replay);
    }
  }

  lemma {:induction false} RunKeepsNumbers(h: Hub, events: seq<HubEvent>, lim: Limits)
    requires Numbered(h)
    ensures Numbered(HubRun(h, events, lim))
    decreases |events|
  {
    hide Connect, SizeOf;
    if events != [] {
      RunKeepsNumbers(HubStep(h, events[0], lim), events[1..], lim);
    }
  }

  /** A client that joins starts with the first id its cursor is owed. */
  lemma JoinMakesClient(h: Hub, cursor: Option<nat>, late: nat, lim: Limits)
    requires HubInv(h, lim) && Numbered(h) && 0 < lim.maxEvents
    requires h.nextClient in HubStep(h, Join(cursor, late), lim).clients
    ensures var g := HubStep(h, Join(cursor, late), lim);
      && Numbered(g) && h.nextClient < g.nextClient
      && g.clients[h.nextClient].start == FirstOwed(h, cursor) && g.clients[h.nextClient].asOf == Latest(h.log)
  {
    hide Connect, FirstOwed, Latest, ClientInv;
    ConnectShape(h, cursor, late, lim);
  }

  /** The client has been given, or still holds, exactly the ids from the first on, up to the later of snapshot and last event. */
  predicate Served(c: Client, first: nat, asOf: nat, published: nat) {
    && c.start == first && c.asOf == asOf
    && c.replay + c.drained + c.queue == Range(first, Max(asOf, published) + 1)
  }

  lemma ClientStays(h: Hub, after: seq<HubEvent>, lim: Limits, k: nat)
    requires HubInv(h, lim) && Numbered(h) && 0 < lim.maxEvents && k in h.clients && k in HubRun(h, after, lim).clients
    ensures var last := HubRun(h, after, lim);
      Served(last.clients[k], h.clients[k].start, h.clients[k].asOf, last.published)
  {
    HubRunKeepsInv(h, after, lim);
    RunKeepsClient(h, after, lim, k, h.clients[k].start, h.clients[k].asOf, h.clients[k].replay);
    hide HubRun, SizeOf;
  }

  /**
   A client that joined with a cursor and is still connected at the end of a run has been given,
   or still holds, exactly the retained ids after its cursor up to the later of its snapshot and
   the last published event.
   */
  lemma ClientGetsWhatItAskedFor(before: seq<HubEvent>, cursor: Option<nat>, late: nat, after: seq<HubEvent>, lim: Limits)
    requires 0 < lim.maxEvents
    requires var h := HubRun(FRESH, before, lim);
      h.nextClient in HubStep(h, Join(cursor, late), lim).clients
      && h.nextClient in HubRun(HubStep(h, Join(cursor, late), lim), after, lim).clients
    ensures var h := HubRun(FRESH, before, lim);
      var last := HubRun(HubStep(h, Join(cursor, late), lim), after, lim);
      Served(last.clients[h.nextClient], FirstOwed(h, cursor), Latest(h.log), last.published)
  {
    var h := HubRun(FRESH, before, lim);
    assert HubInv(FRESH, lim) && Numbered(FRESH);
    hide HubInv, HubStep, Numbered, HubRun, FirstOwed, Latest, Served;
    HubRunKeepsInv(FRESH, before, lim);
    RunKeepsNumbers(FRESH, before, lim);
    HubStepKeepsInv(h, Join(cursor, late), lim);
    JoinMakesClient(h, cursor, late, lim);
    ClientStays(HubStep(h, Join(cursor, late), lim), after, lim, h.nextClient);
  }

  /** A connected client's queue as it is filled and drained in place. */
  class RealtimeClient {
    const limits: Limits
    ghost const start: nat
    const asOf: nat
    const replay: seq<nat>
    var queue: seq<nat>
    var bytes: nat
    var closed: bool
    ghost var drained: seq<nat>

    ghost function Value(): Client
      reads this
    {
      Client(start, asOf, replay, drained, queue, bytes, closed)
    }

    /** A client as the hub makes it; `owed` is the first id it is owed. */
    constructor (asOf: nat, replay: seq<nat>, ghost owed: nat, limits: Limits)
      ensures Value() == Client(owed, asOf, replay, [], [], 0, false) && this.limits == limits
    {
      this.limits, this.asOf, this.replay, start := limits, asOf, replay, owed;
      queue, bytes, closed, drained := [], 0, false, [];
    }

    method CloseClient()
      modifies `queue, `bytes, `closed
      ensures closed && queue == [] && bytes == 0
    {
      queue, bytes, closed := [], 0, true;
    }

    /** Queues a live event, skips one the replay covered, or ends a client that is too slow. */
    method Enqueue(id: nat) returns (slow: bool)
      modifies `queue, `bytes, `closed
      ensures Value() == Offer(old(Value()), id, limits)
      ensures slow <==> !old(closed) && closed
    {
      if closed || id <= asOf {
        return false;
      }
      var size := limits.size(id);
      if |queue| >= limits.maxEvents || bytes + size > limits.maxBytes {
        queue, bytes, closed := [], 0, true;
        return true;
      }
      queue, bytes := queue + [id], bytes + size;
      slow := false;
    }

    /** Takes up to `limit` events off the front, one at a time. */
    method TakeUpTo(limit: nat) returns (result: seq<nat>)
      requires bytes == SizeOf(queue, limits.size)
      modifies `queue, `bytes, `drained
      ensures Value() == Drain(old(Value()), limit, limits)
      ensures |result| == (if limit < |old(queue)| then limit else |old(queue)|) && result == old(queue)[..|result|]
    {
      hide SizeOf, Drain;
      result := [];
      ghost var all := queue;
      EmptyQueueSize(limits);
      while queue != [] && |result| < limit
        invariant all == result + queue && |result| <= limit
        invariant bytes == SizeOf(queue, limits.size) && drained == old(drained) + result
        invariant SizeOf(all, limits.size) == SizeOf(result, limits.size) + bytes
        decreases |queue|
      {
        var head := queue[0];
        OneTaken(result, queue, limits.size);
        queue, bytes := queue[1..], bytes - limits.size(head);
        result := result + [head];
        drained := drained + [head];
      }
      DrainedBy(old(Value()), result, limit, limits);
      assert result == all[..|result|] && queue == all[|result|..];
    }
  }

  /** The hub: every connected client is an object of its own. */
  class RealtimeHub {
    const limits: Limits
    var log: Log
    var floor: nat
    var clients: map<nat, RealtimeClient>
    var nextClient: nat
    ghost var published: nat

    ghost function Value(): Hub
      reads this, clients.Values
    {
      Hub(log, published, floor, map k | k in clients :: clients[k].Value(), nextClient)
    }

    ghost predicate Separate()
      reads this, clients.Values
    {
      && (forall k :: k in clients ==> clients[k].limits == limits && k < nextClient)
      && (forall j, k :: j in clients && k in clients && j != k ==> clients[j] != clients[k])
    }

    constructor (limits: Limits)
      ensures Separate() && Value() == FRESH && this.limits == limits
    {
      this.limits, log, floor, clients, nextClient, published := limits, Log(1, 1), 1, map[], 1, 0;
    }

    /** Offers the event to one client and drops it if it is too slow. */
    method OfferTo(k: nat, id: nat) returns (slow: bool)
      requires Separate() && k in clients
      modifies `clients, clients[k]
      ensures Separate() && old(clients.Keys) - {k} <= clients.Keys <= old(clients.Keys)
      ensures forall j :: j in clients ==> clients[j] == old(clients[j])
      ensures slow <==> TooSlow(old(Value()).clients[k], id, limits)
      ensures Value().clients == OfferedTo(old(Value()).clients, k, id, limits)
    {
      ghost var before := Value().clients;
      var client := clients[k];
      slow := client.Enqueue(id);
      hide Offer;
      if slow {
        clients := map j | j in clients && j != k :: clients[j];
      }
      assert forall j :: j in clients && j != k ==> clients[j] != client;
    }

    /** Offers the event to every client, one at a time, and drops those that are too slow. */
    method OfferToAll(id: nat)
      requires Separate()
      modifies `clients, clients.Values
      ensures Separate() && Value().clients == OfferAll(old(Value()).clients, id, limits)
    {
      ghost var before := Value().clients;
      hide Offer, TooSlow, OfferedTo, OfferedExcept;
      ghost var all := clients;
      var todo := clients.Keys;
      assert todo == before.Keys;
      NoneOffered(before, id, limits);
      while todo != {}
        invariant todo <= clients.Keys && Separate()
        invariant forall k :: k in clients ==> k in all && clients[k] == all[k]
        invariant Value().clients == OfferedExcept(before, todo, id, limits)
        decreases todo
      {
        var k :| k in todo;
        OneOffered(before, todo, k, id, limits);
        var slow := OfferTo(k, id);
        todo := todo - {k};
      }
      AllOffered(before, id, limits);
    }

    /** The next event goes to every client. */
    method PublishEvent(id: nat)
      requires Separate() && id == published + 1 < log.next
      modifies this, clients.Values
      ensures Separate() && Value() == HubStep(old(Value()), Publish, limits)
    {
      hide OfferAll;
      OfferToAll(id);
      published := id;
    }

    /** The replay for a new client, or none when it has to start over. */
    method PrepareReplay(cursor: Option<nat>, asOf: nat, late: nat) returns (replay: Option<seq<nat>>)
      requires asOf == Latest(log)
      ensures Connect(Value(), cursor, late, limits)
           == if replay.None? then None else Some(Client(FirstOwed(Value(), cursor), asOf, replay.value, [], [], 0, false))
    {
      hide ListAfter, UpTo, SizeOf, FirstOwed, Latest;
      if cursor.Some? && (cursor.value + 1 < floor || cursor.value > asOf) {
        return None;
      }
      var records := ListAfter(log.(next := log.next + late), cursor, limits.maxEvents);
      var events := UpTo(records, asOf);
      if (|events| >= limits.maxEvents && records != [] && records[|records| - 1] < asOf)
         || SizeOf(events, limits.size) > limits.maxBytes {
        return None;
      }
      replay := Some(events);
    }

    /** Snapshot id, replay, then registration; `late` events are appended by others in between. */
    method ConnectClient(cursor: Option<nat>, late: nat) returns (client: Option<RealtimeClient>)
      requires Separate()
      modifies this
      ensures Separate() && Value() == HubStep(old(Value()), Join(cursor, late), limits)
      ensures client.Some? <==> Connect(old(Value()), cursor, late, limits).Some?
      ensures client.Some? ==> Some(client.value.Value()) == Connect(old(Value()), cursor, late, limits)
    {
      var asOf := Latest(log);
      var replay := PrepareReplay(cursor, asOf, late);
      JoinIs(Value(), cursor, late, limits);
      hide *;
      ghost var owed := FirstOwed(Value(), cursor);
      Appended(late);
      if replay.None? {
        return None;
      }
      var made := Register(asOf, replay.value, owed);
      client := Some(made);
    }

    /** Other writers have appended to the log. */
    method Appended(late: nat)
      modifies `log
      ensures Value() == AfterAppends(old(Value()), late)
      ensures old(Separate()) ==> Separate()
    {
      log := log.(next := log.next + late);
    }

    method Register(asOf: nat, replay: seq<nat>, ghost owed: nat) returns (made: RealtimeClient)
      requires Separate()
      modifies `clients, `nextClient
      ensures Separate()
      ensures made.Value() == Client(owed, asOf, replay, [], [], 0, false)
      ensures Value() == WithClient(old(Value()), made.Value())
    {
      made := new RealtimeClient(asOf, replay, owed, limits);
      clients := clients[nextClient := made];
      nextClient := nextClient + 1;
    }

    /** The client's place in the hub is given up and its queue is emptied. */
    method Disconnect(k: nat)
      requires Separate()
      modifies this, clients.Values
      ensures Separate() && Value() == HubStep(old(Value()), Leave(k), limits)
      ensures k in old(clients) ==> old(clients)[k].closed && old(clients)[k].queue == []
    {
      if k in clients {
        var client := clients[k];
        clients := map j | j in clients && j != k :: clients[j];
        client.CloseClient();
      }
    }
  }

  lemma JoinIs(h: Hub, cursor: Option<nat>, late: nat, lim: Limits)
    ensures var c := Connect(h, cursor, late, lim);
      HubStep(h, Join(cursor, late), lim)
      == if c.None? then AfterAppends(h, late) else WithClient(AfterAppends(h, late), c.value)
  {
  }

  /** One client has been offered the event. */
  function OfferedTo(clients: map<nat, Client>, k: nat, id: nat, lim: Limits): map<nat, Client>
    requires k in clients
  {
    if TooSlow(clients[k], id, lim) then map j | j in clients && j != k :: clients[j] else clients[k := Offer(clients[k], id, lim)]
  }

  /** All clients but some have been offered the event. */
  function OfferedExcept(clients: map<nat, Client>, todo: set<nat>, id: nat, lim: Limits): map<nat, Client> {
    map k | k in clients && (k in todo || !TooSlow(clients[k], id, lim)) ::
      if k in todo then clients[k] else Offer(clients[k], id, lim)
  }

  lemma NoneOffered(clients: map<nat, Client>, id: nat, lim: Limits)
    ensures OfferedExcept(clients, clients.Keys, id, lim) == clients
  {
  }

  lemma OneOffered(clients: map<nat, Client>, todo: set<nat>, k: nat, id: nat, lim: Limits)
    requires k in todo && todo <= clients.Keys
    ensures k in OfferedExcept(clients, todo, id, lim)
    ensures OfferedTo(OfferedExcept(clients, todo, id, lim), k, id, lim) == OfferedExcept(clients, todo - {k}, id, lim)
  {
    hide Offer;
  }

  lemma AllOffered(clients: map<nat, Client>, id: nat, lim: Limits)
    ensures OfferedExcept(clients, {}, id, lim) == OfferAll(clients, id, lim)
  {
    hide Offer;
  }

  /** Moving the head of the queue to the result moves its size. */
  lemma OneTaken(result: seq<nat>, queue: seq<nat>, size: nat -> nat)
    requires queue != []
    ensures SizeOf(queue, size) == size(queue[0]) + SizeOf(queue[1..], size)
    ensures SizeOf(result + [queue[0]], size) == SizeOf(result, size) + size(queue[0])
    ensures result + [queue[0]] + queue[1..] == result + queue
  {
    SizeOfConcat(result, [queue[0]], size);
    assert SizeOf([queue[0]], size) == size(queue[0]);
  }

  lemma DrainedBy(c: Client, result: seq<nat>, limit: nat, lim: Limits)
    requires result <= c.queue && |result| == if limit < |c.queue| then limit else |c.queue|
    requires c.bytes == SizeOf(c.queue, lim.size)
    ensures Drain(c, limit, lim)
         == c.(drained := c.drained + result, queue := c.queue[|result|..], bytes := SizeOf(c.queue[|result|..], lim.size))
  {
    assert c.queue == result + c.queue[|result|..] && c.queue[..|result|] == result;
    SizeOfConcat(result, c.queue[|result|..], lim.size);
  }
}
