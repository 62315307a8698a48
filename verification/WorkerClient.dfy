/**
 Ownership of worker requests and the restart budget of the worker process. The monitor thread
 dispatches, takes results and handles losses; submissions and cancellations come from other
 threads and may fall between any two of its steps.
 */
module WorkerClient {
  import opened Bytes
  import OutboxModel

  type Key = OutboxModel.Key

  /** A submission; the token tells two submissions under one key apart. */
  datatype Request = Request(token: nat, key: Key)

  datatype ResultState = SUCCEEDED | FAILED | TIMEOUT | WORKER_CANCELED

  /** A final result on its way to the result callback. */
  datatype Verdict = Verdict(request: Request, state: ResultState)

  /** Whether the callback raises on the result, and on the failure record that may follow it. */
  datatype Raises = Raises(first: bool, second: bool)

  datatype Delivery = Delivery(verdict: Verdict, raises: Raises)

  /** One invocation of the callback. */
  datatype Call = Call(request: Request, state: ResultState, raised: bool)

  /** A callback that raises on anything but a failure is called once more, with a failure record. */
  function CallsOf(d: Delivery): seq<Call> {
    var v := d.verdict;
    if d.raises.first && v.state != FAILED then [Call(v.request, v.state, true), Call(v.request, FAILED, d.raises.second)]
    else [Call(v.request, v.state, d.raises.first)]
  }

  /** All invocations of the callback, in order. */
  function Calls(delivered: seq<Delivery>): seq<Call> {
    if delivered == [] then [] else Calls(delivered[..|delivered| - 1]) + CallsOf(delivered[|delivered| - 1])
  }

  function Given(handing: seq<Verdict>): seq<Request> {
    seq(|handing|, i requires 0 <= i < |handing| => handing[i].request)
  }

  function Done(delivered: seq<Delivery>): seq<Request> {
    seq(|delivered|, i requires 0 <= i < |delivered| => delivered[i].verdict.request)
  }

  datatype ServiceState = STARTING | SERVICE_READY | DEGRADED | FAULT | STOPPED

  /** What the monitor is in the middle of. */
  datatype Monitor = Watching | Losing(restart: bool, state: ResultState)

  datatype Limits = Limits(maxPending: nat, maxRestarts: nat, window: nat)

  /**
   `handing` holds results of requests taken out of the queue that are on their way to the
   callback; `accepted`, `delivered` and `restarts` are histories.
   */
  datatype Client = Client(
    pending: seq<Request>, active: Option<Request>, handing: seq<Verdict>, delivered: seq<Delivery>,
    accepted: seq<Request>, ready: bool, state: ServiceState, monitor: Monitor,
    recent: seq<nat>, restarts: seq<nat>)

  const STARTED: Client := Client([], None, [], [], [], false, STARTING, Watching, [], [])

  function Submit(c: Client, key: Key, lim: Limits): Client {
    var limit := if c.ready && c.active.None? then lim.maxPending + 1 else lim.maxPending;
    if c.state == FAULT || c.state == STOPPED || |c.pending| >= limit then c
    else
      var request := Request(|c.accepted|, key);
      c.(pending := c.pending + [request], accepted := c.accepted + [request])
  }

  /** Position of the first pending request under a key, or the length of the queue. */
  function IndexOf(pending: seq<Request>, key: Key): (i: nat)
    ensures i <= |pending|
    ensures i < |pending| ==> pending[i].key == key
    ensures forall j :: 0 <= j < i ==> pending[j].key != key
  {
    if pending == [] || pending[0].key == key then 0 else 1 + IndexOf(pending[1..], key)
  }

  /** A pending request is taken out; an active one is only asked to stop. */
  function Cancel(c: Client, key: Key): Client {
    var i := IndexOf(c.pending, key);
    if i == |c.pending| then c
    else c.(pending := c.pending[..i] + c.pending[i + 1..], handing := c.handing + [Verdict(c.pending[i], WORKER_CANCELED)])
  }

  function Dispatch(c: Client): Client {
    if c.monitor != Watching || !c.ready || c.active.Some? || c.pending == [] then c
    else c.(pending := c.pending[1..], active := Some(c.pending[0]))
  }

  /** A result for the active request; ownership ends when the callback has it. */
  function Answer(c: Client, key: Key, state: ResultState, raises: Raises): Client {
    if c.monitor != Watching || c.active.None? || c.active.value.key != key then c
    else c.(active := None, delivered := c.delivered + [Delivery(Verdict(c.active.value, state), raises)])
  }

  /** Restarts still inside the window. */
  function Recent(times: seq<nat>, now: nat, window: nat): seq<nat> {
    if times != [] && now - times[0] >= window then Recent(times[1..], now, window) else times
  }

  function AllFailed(pending: seq<Request>): seq<Verdict> {
    seq(|pending|, i requires 0 <= i < |pending| => Verdict(pending[i], FAILED))
  }

  /** The process is gone: a restart if the budget allows, otherwise everything queued fails too. */
  function Lose(c: Client, state: ResultState, now: nat, lim: Limits): Client {
    if c.monitor != Watching || c.state == STOPPED then c
    else
      var recent := Recent(c.recent, now, lim.window);
      if |recent| >= lim.maxRestarts then
        c.(ready := false, recent := recent, pending := [], handing := c.handing + AllFailed(c.pending),
            monitor := Losing(false, state))
      else c.(ready := false, recent := recent + [now], restarts := c.restarts + [now],
                monitor := Losing(true, state))
  }

  /** The active request gets its failure; then the service is at fault or starts over. */
  function FinishLoss(c: Client, raises: Raises): Client {
    match c.monitor
    case Watching => c
    case Losing(restart, state) =>
      c.(active := None,
         delivered := if c.active.Some? then c.delivered + [Delivery(Verdict(c.active.value, state), raises)] else c.delivered,
         state := if restart then DEGRADED else FAULT, monitor := Watching)
  }

  /** One handed-out result reaches the callback. */
  function HandOver(c: Client, raises: Raises): Client {
    if c.handing == [] then c
    else c.(handing := c.handing[1..], delivered := c.delivered + [Delivery(c.handing[0], raises)])
  }

  datatype Event =
    | EvSubmit(key: Key)
    | EvCancel(key: Key)
    | EvDispatch
    | EvResult(key: Key, state: ResultState, raises: Raises)
    | EvHeartbeat
    | EvLose(state: ResultState, now: nat)
    | EvFinishLoss(raises: Raises)
    | EvHandOver(raises: Raises)

  function Step(c: Client, ev: Event, lim: Limits): Client {
    match ev
    case EvSubmit(key) => Submit(c, key, lim)
    case EvCancel(key) => Cancel(c, key)
    case EvDispatch => Dispatch(c)
    case EvResult(key, state, raises) => Answer(c, key, state, raises)
    case EvHeartbeat => if c.monitor == Watching then c.(ready := true, state := SERVICE_READY) else c
    case EvLose(state, now) => Lose(c, state, now, lim)
    case EvFinishLoss(raises) => FinishLoss(c, raises)
    case EvHandOver(raises) => HandOver(c, raises)
  }

  function ActiveBag(active: Option<Request>): multiset<Request> {
    if active.Some? then multiset{active.value} else multiset{}
  }

  /** Everything that is somewhere. */
  function Held(c: Client): multiset<Request> {
    multiset(c.pending) + ActiveBag(c.active) + multiset(Given(c.handing)) + multiset(Done(c.delivered))
  }

  predicate NumberedFrom0(accepted: seq<Request>) {
    forall i :: 0 <= i < |accepted| ==> accepted[i].token == i
  }

  /** Every accepted request is in exactly one place. */
  ghost predicate OwnershipInv(c: Client) {
    Held(c) == multiset(c.accepted) && NumberedFrom0(c.accepted)
  }

  lemma RemoveAt(pending: seq<Request>, i: nat)
    requires i < |pending|
    ensures multiset(pending) == multiset(pending[..i] + pending[i + 1..]) + multiset{pending[i]}
  {
    assert pending == pending[..i] + [pending[i]] + pending[i + 1..];
  }

  lemma GivenConcat(a: seq<Verdict>, b: seq<Verdict>)
    ensures Given(a + b) == Given(a) + Given(b)
  {
  }

  lemma DoneSnoc(delivered: seq<Delivery>, d: Delivery)
    ensures multiset(Done(delivered + [d])) == multiset(Done(delivered)) + multiset{d.verdict.request}
  {
    assert Done(delivered + [d]) == Done(delivered) + [d.verdict.request];
  }

  lemma TakenOut(pending: seq<Request>, handing: seq<Request>, i: nat)
    requires i < |pending|
    ensures multiset(pending[..i] + pending[i + 1..]) + multiset(handing + [pending[i]]) == multiset(pending) + multiset(handing)
  {
    RemoveAt(pending, i);
    assert multiset(handing + [pending[i]]) == multiset(handing) + multiset{pending[i]};
  }

  lemma CancelMoves(c: Client, key: Key)
    ensures Held(Cancel(c, key)) == Held(c)
  {
    var d := Cancel(c, key);
    var i := IndexOf(c.pending, key);
    if i < |c.pending| {
      var v := Verdict(c.pending[i], WORKER_CANCELED);
      assert d.pending == c.pending[..i] + c.pending[i + 1..] && d.handing == c.handing + [v];
      assert d.active == c.active && d.delivered == c.delivered;
      hide Cancel, IndexOf;
      assert multiset(d.pending) + multiset(Given(d.handing)) == multiset(c.pending) + multiset(Given(c.handing)) by {
        GivenConcat(c.handing, [v]);
        assert Given([v]) == [c.pending[i]];
        TakenOut(c.pending, Given(c.handing), i);
      }
      Regroup(multiset(c.pending), multiset(Given(c.handing)), multiset(d.pending), multiset(Given(d.handing)), ActiveBag(c.active),
        multiset(Done(c.delivered)));
    }
  }

  lemma Regroup(pending: multiset<Request>, handing: multiset<Request>, pending': multiset<Request>,
                handing': multiset<Request>, active: multiset<Request>, delivered: multiset<Request>)
    requires pending' + handing' == pending + handing
    ensures pending' + active + handing' + delivered == pending + active + handing + delivered
  {
    assert pending' + active + handing' == active + (pending' + handing');
    assert pending + active + handing == active + (pending + handing);
  }

  lemma DispatchMoves(c: Client)
    ensures Held(Dispatch(c)) == Held(c)
  {
    if c.pending != [] {
      assert c.pending == [c.pending[0]] + c.pending[1..];
    }
  }

  lemma ResultMoves(c: Client, key: Key, state: ResultState, raises: Raises)
    ensures Held(Answer(c, key, state, raises)) == Held(c)
  {
    if c.active.Some? {
      DoneSnoc(c.delivered, Delivery(Verdict(c.active.value, state), raises));
    }
    hide Given, Done;
  }

  lemma FinishLossMoves(c: Client, raises: Raises)
    ensures Held(FinishLoss(c, raises)) == Held(c)
  {
    if c.active.Some? && c.monitor.Losing? {
      DoneSnoc(c.delivered, Delivery(Verdict(c.active.value, c.monitor.state), raises));
    }
    hide Given, Done;
  }

  lemma LoseShape(c: Client, state: ResultState, now: nat, lim: Limits)
    ensures var d := Lose(c, state, now, lim);
      && d.active == c.active && d.delivered == c.delivered
      && ((d.pending == c.pending && d.handing == c.handing) || (d.pending == [] && d.handing == c.handing + AllFailed(c.pending)))
  {
    hide Recent, AllFailed;
  }

  lemma LoseMoves(c: Client, state: ResultState, now: nat, lim: Limits)
    ensures Held(Lose(c, state, now, lim)) == Held(c)
  {
    var d := Lose(c, state, now, lim);
    LoseShape(c, state, now, lim);
    GivenConcat(c.handing, AllFailed(c.pending));
    assert Given(AllFailed(c.pending)) == c.pending;
    hide Lose, Given, Done, AllFailed;
    assert multiset(Given(c.handing) + c.pending) == multiset(Given(c.handing)) + multiset(c.pending);
    Regroup(multiset(c.pending), multiset(Given(c.handing)), multiset(d.pending), multiset(Given(d.handing)), ActiveBag(c.active),
      multiset(Done(c.delivered)));
  }

  lemma HandOverMoves(c: Client, raises: Raises)
    ensures Held(HandOver(c, raises)) == Held(c)
  {
    if c.handing != [] {
      var head, rest := c.handing[0], c.handing[1..];
      assert c.handing == [head] + rest;
      GivenConcat([head], rest);
      assert Given([head]) == [head.request];
      DoneSnoc(c.delivered, Delivery(head, raises));
      hide Given, Done;
      assert multiset([head.request] + Given(rest)) == multiset{head.request} + multiset(Given(rest));
    }
  }

  lemma SubmitAdds(c: Client, key: Key, lim: Limits)
    requires OwnershipInv(c)
    ensures OwnershipInv(Submit(c, key, lim))
  {
    var request := Request(|c.accepted|, key);
    assert multiset(c.accepted + [request]) == multiset(c.accepted) + multiset{request};
    SubmitHolds(c.pending, request, ActiveBag(c.active), multiset(Given(c.handing)), multiset(Done(c.delivered)));
    hide Given, Done, ActiveBag;
  }

  lemma SubmitHolds(pending: seq<Request>, r: Request, active: multiset<Request>, handing: multiset<Request>, delivered: multiset<Request>)
    ensures multiset(pending + [r]) + active + handing + delivered == (multiset(pending) + active + handing + delivered) + multiset{r}
  {
    assert multiset(pending + [r]) == multiset(pending) + multiset{r};
  }

  lemma OnlySubmitAccepts(c: Client, ev: Event, lim: Limits)
    requires !ev.EvSubmit?
    ensures Step(c, ev, lim).accepted == c.accepted
  {
    hide Recent, IndexOf;
  }

  lemma StepKeepsOwnership(c: Client, ev: Event, lim: Limits)
    requires OwnershipInv(c)
    ensures OwnershipInv(Step(c, ev, lim))
  {
    if !ev.EvSubmit? {
      OnlySubmitAccepts(c, ev, lim);
    }
    hide Submit, Cancel, Dispatch, Answer, Lose, FinishLoss, HandOver, NumberedFrom0;
    match ev
    case EvSubmit(key) => SubmitAdds(c, key, lim);
    case EvCancel(key) => CancelMoves(c, key);
    case EvDispatch => DispatchMoves(c);
    case EvResult(key, state, raises) => ResultMoves(c, key, state, raises);
    case EvHeartbeat =>
    case EvLose(state, now) => LoseMoves(c, state, now, lim);
    case EvFinishLoss(raises) => FinishLossMoves(c, raises);
    case EvHandOver(raises) => HandOverMoves(c, raises);
  }

  lemma {:induction false} DistinctCount(accepted: seq<Request>, r: Request)
    requires NumberedFrom0(accepted)
    ensures multiset(accepted)[r] <= 1
  {
    if accepted != [] {
      var init, last := accepted[..|accepted| - 1], accepted[|accepted| - 1];
      assert accepted == init + [last];
      DistinctCount(init, r);
      if r == last {
        assert r !in init;
      }
    }
  }

  function Run(c: Client, events: seq<Event>, lim: Limits): Client
    decreases |events|
  {
    if events == [] then c else Run(Step(c, events[0], lim), events[1..], lim)
  }

  lemma {:induction false} RunKeepsOwnership(c: Client, events: seq<Event>, lim: Limits)
    requires OwnershipInv(c)
    ensures OwnershipInv(Run(c, events, lim))
    decreases |events|
  {
    hide OwnershipInv, Step;
    if events != [] {
      StepKeepsOwnership(c, events[0], lim);
      RunKeepsOwnership(Step(c, events[0], lim), events[1..], lim);
    }
  }

  /** In every run each accepted request is pending, active, being handed over or delivered, and delivered at most once. */
  lemma DeliveredAtMostOnce(events: seq<Event>, lim: Limits, r: Request)
    ensures var c := Run(STARTED, events, lim);
      && Held(c) == multiset(c.accepted)
      && multiset(Done(c.delivered))[r] <= 1
      && (r in Done(c.delivered) ==> r !in c.pending && c.active != Some(r) && r !in Given(c.handing))
  {
    RunKeepsOwnership(STARTED, events, lim);
    var c := Run(STARTED, events, lim);
    DistinctCount(c.accepted, r);
    hide Run, Given, Done;
    assert Held(c)[r] <= 1;
    if r in Done(c.delivered) {
      assert multiset(Done(c.delivered))[r] == 1;
      assert multiset(c.pending)[r] == 0 && multiset(Given(c.handing))[r] == 0 && ActiveBag(c.active)[r] == 0;
    }
  }

  // ---------------------------------------------------------------- invocations of the callback

  /** The invocations for one request. */
  function CallsFor(calls: seq<Call>, r: Request): seq<Call> {
    if calls == [] then []
    else CallsFor(calls[..|calls| - 1], r) + (if calls[|calls| - 1].request == r then [calls[|calls| - 1]] else [])
  }

  lemma {:induction false} CallsForConcat(a: seq<Call>, b: seq<Call>, r: Request)
    ensures CallsFor(a + b, r) == CallsFor(a, r) + CallsFor(b, r)
  {
    if b == [] {
      assert a + b == a;
    } else {
      assert (a + b)[..|a + b| - 1] == a + b[..|b| - 1];
      CallsForConcat(a, b[..|b| - 1], r);
    }
  }

  lemma CallsForOne(call: Call, r: Request)
    ensures CallsFor([call], r) == if call.request == r then [call] else []
  {
    assert [call][..0] == [];
  }

  lemma OneDelivery(d: Delivery, r: Request)
    ensures CallsFor(CallsOf(d), r) == if d.verdict.request == r then CallsOf(d) else []
  {
    var calls := CallsOf(d);
    CallsForOne(calls[0], r);
    if |calls| == 2 {
      assert calls == [calls[0]] + [calls[1]];
      CallsForConcat([calls[0]], [calls[1]], r);
      CallsForOne(calls[1], r);
    } else {
      assert calls == [calls[0]];
    }
  }

  predicate IsFor(d: Delivery, r: Request) {
    d.verdict.request == r
  }

  lemma {:induction false} NoDeliveryNoCall(delivered: seq<Delivery>, r: Request)
    requires forall i :: 0 <= i < |delivered| ==> !IsFor(delivered[i], r)
    ensures CallsFor(Calls(delivered), r) == []
  {
    if delivered != [] {
      var init, last := delivered[..|delivered| - 1], delivered[|delivered| - 1];
      NoDeliveryNoCall(init, r);
      CallsForConcat(Calls(init), CallsOf(last), r);
      OneDelivery(last, r);
    }
  }

  /** The only delivery of a request makes all its invocations. */
  lemma {:induction false} OneDeliveryItsCalls(delivered: seq<Delivery>, r: Request, i: nat)
    requires i < |delivered| && IsFor(delivered[i], r)
    requires forall j :: 0 <= j < |delivered| && j != i ==> !IsFor(delivered[j], r)
    ensures CallsFor(Calls(delivered), r) == CallsOf(delivered[i])
  {
    var init, last := delivered[..|delivered| - 1], delivered[|delivered| - 1];
    CallsForConcat(Calls(init), CallsOf(last), r);
    OneDelivery(last, r);
    if i == |delivered| - 1 {
      NoDeliveryNoCall(init, r);
    } else {
      OneDeliveryItsCalls(init, r, i);
    }
  }

  lemma TwoPlacesCountTwo(done: seq<Request>, i: nat, j: nat)
    requires i < j < |done| && done[i] == done[j]
    ensures multiset(done)[done[i]] >= 2
  {
    assert done == done[..i + 1] + done[i + 1..];
    assert done[..i + 1][i] == done[i] && done[i + 1..][j - i - 1] == done[i];
    assert multiset(done) == multiset(done[..i + 1]) + multiset(done[i + 1..]);
  }

  /** Delivered at most once means that no two deliveries are for one request. */
  lemma DeliveredOnce(delivered: seq<Delivery>, r: Request, i: nat, j: nat)
    requires multiset(Done(delivered))[r] <= 1 && i < j < |delivered|
    ensures !(IsFor(delivered[i], r) && IsFor(delivered[j], r))
  {
    if Done(delivered)[i] == Done(delivered)[j] {
      TwoPlacesCountTwo(Done(delivered), i, j);
    }
  }

  /**
   In every run the callback is invoked for a request at most twice: never before it is delivered,
   and twice exactly when the first invocation raised on a result other than a failure. The second
   one carries a failure.
   */
  lemma CallbackAtMostTwice(events: seq<Event>, lim: Limits, r: Request)
    ensures var c := Run(STARTED, events, lim);
      var calls := CallsFor(Calls(c.delivered), r);
      && (calls == [] <==> r !in Done(c.delivered))
      && |calls| <= 2
      && (|calls| == 2 <==> calls != [] && calls[0].raised && calls[0].state != FAILED)
      && (|calls| == 2 ==> calls[1].state == FAILED)
  {
    DeliveredAtMostOnce(events, lim, r);
    var delivered := Run(STARTED, events, lim).delivered;
    hide Run;
    if r in Done(delivered) {
      var i :| 0 <= i < |delivered| && IsFor(delivered[i], r);
      forall j | 0 <= j < |delivered| && j != i ensures !IsFor(delivered[j], r) {
        DeliveredOnce(delivered, r, if i < j then i else j, if i < j then j else i);
      }
      OneDeliveryItsCalls(delivered, r, i);
    } else {
      forall j | 0 <= j < |delivered| ensures !IsFor(delivered[j], r) {
        assert Done(delivered)[j] == delivered[j].verdict.request;
      }
      NoDeliveryNoCall(delivered, r);
    }
  }

  // ---------------------------------------------------------------- restart budget

  /** Any maxRestarts + 1 restarts in a row span at least the window. */
  predicate Spaced(times: seq<nat>, lim: Limits) {
    forall i :: 0 <= i && i + lim.maxRestarts < |times| ==> times[i + lim.maxRestarts] - times[i] >= lim.window
  }

  predicate Ascending(times: seq<nat>) {
    forall i, j :: 0 <= i <= j < |times| ==> times[i] <= times[j]
  }

  /** The remembered restarts are the last ones, and the forgotten ones are out of the window by now. */
  ghost predicate InBudget(restarts: seq<nat>, recent: seq<nat>, now: nat, lim: Limits) {
    && Spaced(restarts, lim) && Ascending(restarts)
    && |recent| <= |restarts| && recent == restarts[|restarts| - |recent|..]
    && (forall i :: 0 <= i < |restarts| ==> restarts[i] <= now)
    && (forall i :: 0 <= i < |restarts| - |recent| ==> now - restarts[i] >= lim.window)
  }

  ghost predicate BudgetInv(c: Client, now: nat, lim: Limits) {
    InBudget(c.restarts, c.recent, now, lim)
  }

  lemma {:induction false} RecentIsSuffix(times: seq<nat>, now: nat, window: nat)
    ensures |Recent(times, now, window)| <= |times|
    ensures Recent(times, now, window) == times[|times| - |Recent(times, now, window)|..]
    ensures forall i :: 0 <= i < |times| - |Recent(times, now, window)| ==> now - times[i] >= window
  {
    if times != [] && now - times[0] >= window {
      RecentIsSuffix(times[1..], now, window);
    }
  }

  lemma ForgettingKeepsBudget(restarts: seq<nat>, recent: seq<nat>, before: nat, now: nat, lim: Limits)
    requires InBudget(restarts, recent, before, lim) && before <= now
    ensures InBudget(restarts, Recent(recent, now, lim.window), now, lim)
  {
    RecentIsSuffix(recent, now, lim.window);
    var kept := Recent(recent, now, lim.window);
    hide Recent, Spaced, Ascending;
    var gone := |restarts| - |recent|;
    forall i | 0 <= i < |restarts| - |kept| ensures now - restarts[i] >= lim.window {
      if i >= gone {
        assert restarts[i] == recent[i - gone];
      }
    }
  }

  lemma RestartingKeepsBudget(restarts: seq<nat>, recent: seq<nat>, now: nat, lim: Limits)
    requires InBudget(restarts, recent, now, lim) && |recent| < lim.maxRestarts
    ensures InBudget(restarts + [now], recent + [now], now, lim)
  {
  }

  /** A loss, in non-decreasing time, keeps the restart budget. */
  lemma LoseKeepsBudget(c: Client, state: ResultState, before: nat, now: nat, lim: Limits)
    requires BudgetInv(c, before, lim) && before <= now
    ensures BudgetInv(Lose(c, state, now, lim), now, lim)
  {
    ForgettingKeepsBudget(c.restarts, c.recent, before, now, lim);
    var kept := Recent(c.recent, now, lim.window);
    if |kept| < lim.maxRestarts {
      RestartingKeepsBudget(c.restarts, kept, now, lim);
    }
    LaterKeepsBudget(c.restarts, c.recent, before, now, lim);
    hide Recent, AllFailed, InBudget;
  }

  lemma LaterKeepsBudget(restarts: seq<nat>, recent: seq<nat>, before: nat, now: nat, lim: Limits)
    requires InBudget(restarts, recent, before, lim) && before <= now
    ensures InBudget(restarts, recent, now, lim)
  {
  }

  lemma OthersKeepBudget(c: Client, ev: Event, now: nat, later: nat, lim: Limits)
    requires BudgetInv(c, now, lim) && now <= later && !ev.EvLose?
    ensures BudgetInv(Step(c, ev, lim), later, lim)
  {
    OnlyLossRestarts(c, ev, lim);
    hide Step;
  }

  lemma OnlyLossRestarts(c: Client, ev: Event, lim: Limits)
    requires !ev.EvLose?
    ensures Step(c, ev, lim).restarts == c.restarts && Step(c, ev, lim).recent == c.recent
  {
    hide IndexOf;
  }

  /** Losses carry the time of the monitor's clock, which does not run backwards. */
  ghost predicate ClockRuns(events: seq<Event>, from: nat) {
    events == [] || (if events[0].EvLose? then from <= events[0].now && ClockRuns(events[1..], events[0].now) else ClockRuns(events[1..], from))
  }

  lemma {:induction false} RunKeepsBudget(c: Client, events: seq<Event>, now: nat, lim: Limits)
    requires BudgetInv(c, now, lim) && ClockRuns(events, now)
    ensures Spaced(Run(c, events, lim).restarts, lim)
    decreases |events|
  {
    if events != [] {
      if events[0].EvLose? {
        LoseKeepsBudget(c, events[0].state, now, events[0].now, lim);
        hide BudgetInv, Lose;
        RunKeepsBudget(Step(c, events[0], lim), events[1..], events[0].now, lim);
      } else {
        OthersKeepBudget(c, events[0], now, now, lim);
        hide BudgetInv, Step;
        RunKeepsBudget(Step(c, events[0], lim), events[1..], now, lim);
      }
    }
  }

  /** No window of the configured length contains more than the allowed number of restarts. */
  lemma RestartsAreBounded(events: seq<Event>, lim: Limits, i: nat)
    requires ClockRuns(events, 0)
    requires i + lim.maxRestarts < |Run(STARTED, events, lim).restarts|
    ensures var times := Run(STARTED, events, lim).restarts;
      times[i + lim.maxRestarts] - times[i] >= lim.window
  {
    RunKeepsBudget(STARTED, events, 0, lim);
    hide Run;
  }

  // ---------------------------------------------------------------- what a step is for

  /** A submission is accepted exactly while the client runs and has room; an idle ready worker makes room for one more. */
  lemma SubmittedIff(c: Client, key: Key, lim: Limits)
    ensures Submit(c, key, lim) != c <==>
      && c.state != FAULT && c.state != STOPPED
      && (|c.pending| < lim.maxPending || (|c.pending| == lim.maxPending && c.ready && c.active.None?))
    ensures Submit(c, key, lim) != c ==>
      var d, request := Submit(c, key, lim), Request(|c.accepted|, key);
      && d.accepted == c.accepted + [request] && d.pending == c.pending + [request]
      && Held(d) == Held(c) + multiset{request}
  {
    var request := Request(|c.accepted|, key);
    assert (c.accepted + [request])[|c.accepted|..] == [request];
    SubmitHolds(c.pending, request, ActiveBag(c.active), multiset(Given(c.handing)), multiset(Done(c.delivered)));
    hide Given, Done, ActiveBag;
  }

  /** A worker gets a request exactly when it is ready and idle and one waits, and it gets the one waiting longest. */
  lemma DispatchedIff(c: Client)
    ensures Dispatch(c).active != c.active <==> c.monitor == Watching && c.ready && c.active.None? && c.pending != []
    ensures Dispatch(c).active != c.active ==>
      Dispatch(c).active.Some? && c.pending == [Dispatch(c).active.value] + Dispatch(c).pending
    ensures Dispatch(c).active == c.active ==> Dispatch(c) == c
  {
  }

  /** A result counts exactly when it is for the active request and no loss is being handled. */
  lemma ResultCountsIff(c: Client, key: Key, state: ResultState, raises: Raises)
    ensures Answer(c, key, state, raises) != c <==> c.monitor == Watching && c.active.Some? && c.active.value.key == key
    ensures Answer(c, key, state, raises) != c ==>
      var d := Answer(c, key, state, raises);
      && d.active.None? && d.pending == c.pending && d.handing == c.handing
      && d.delivered == c.delivered + [Delivery(Verdict(c.active.value, state), raises)]
  {
  }

  /** From submission to callback: a request to an empty running client is delivered with the worker's result. */
  lemma RequestIsServed(c: Client, key: Key, state: ResultState, raises: Raises, lim: Limits)
    requires c.monitor == Watching && c.state != FAULT && c.state != STOPPED
    requires c.pending == [] && c.active.None? && (lim.maxPending > 0 || c.ready)
    ensures var d := Run(c, [EvSubmit(key), EvHeartbeat, EvDispatch, EvResult(key, state, raises)], lim);
      && d.delivered == c.delivered + [Delivery(Verdict(Request(|c.accepted|, key), state), raises)]
      && d.pending == [] && d.active.None? && d.state == SERVICE_READY
  {
    var request := Request(|c.accepted|, key);
    var events := [EvSubmit(key), EvHeartbeat, EvDispatch, EvResult(key, state, raises)];
    assert events[1..] == [EvHeartbeat, EvDispatch, EvResult(key, state, raises)];
    assert events[1..][1..] == [EvDispatch, EvResult(key, state, raises)];
    assert events[1..][1..][1..] == [EvResult(key, state, raises)];
    assert [EvResult(key, state, raises)][1..] == [];
    var c1 := Step(c, EvSubmit(key), lim);
    assert c1.pending == [request] && [request][1..] == [];
    var c2 := Step(c1, EvHeartbeat, lim);
    var c3 := Step(c2, EvDispatch, lim);
    assert c3.active == Some(request) && c3.pending == [];
    var c4 := Step(c3, EvResult(key, state, raises), lim);
    hide Step;
    assert Run(c4, [], lim) == c4;
    assert Run(c3, [EvResult(key, state, raises)], lim) == c4;
    assert Run(c2, events[1..][1..], lim) == c4;
    assert Run(c1, events[1..], lim) == c4;
  }

  /** A request canceled while it waits, the first under its key, is taken out and delivered as canceled. */
  lemma CanceledIsDelivered(c: Client, key: Key, i: nat, raises: Raises, lim: Limits)
    requires i < |c.pending| && c.pending[i].key == key && (forall j :: 0 <= j < i ==> c.pending[j].key != key)
    requires c.handing == []
    ensures var d := Run(c, [EvCancel(key), EvHandOver(raises)], lim);
      && d.delivered == c.delivered + [Delivery(Verdict(c.pending[i], WORKER_CANCELED), raises)]
      && d.pending == c.pending[..i] + c.pending[i + 1..] && d.active == c.active && d.handing == []
  {
    assert IndexOf(c.pending, key) == i;
    var c1 := Step(c, EvCancel(key), lim);
    assert c1.handing == [Verdict(c.pending[i], WORKER_CANCELED)];
    assert [EvCancel(key), EvHandOver(raises)][1..] == [EvHandOver(raises)] && [EvHandOver(raises)][1..] == [];
    assert Run(c1, [EvHandOver(raises)], lim) == Run(Step(c1, EvHandOver(raises), lim), [], lim);
    hide IndexOf;
  }

  /** Of all restarts so far fewer than allowed happened within the window. */
  predicate BudgetLeft(restarts: seq<nat>, now: nat, lim: Limits) {
    lim.maxRestarts > 0 && (|restarts| < lim.maxRestarts || now - restarts[|restarts| - lim.maxRestarts] >= lim.window)
  }

  lemma {:induction false} RecentStartsInside(times: seq<nat>, now: nat, window: nat)
    ensures Recent(times, now, window) != [] ==> now - Recent(times, now, window)[0] < window
  {
    if times != [] && now - times[0] >= window {
      RecentStartsInside(times[1..], now, window);
    }
  }

  lemma RecentDecidesBudget(restarts: seq<nat>, recent: seq<nat>, before: nat, now: nat, lim: Limits)
    requires InBudget(restarts, recent, before, lim) && before <= now
    ensures |Recent(recent, now, lim.window)| < lim.maxRestarts <==> BudgetLeft(restarts, now, lim)
  {
    ForgettingKeepsBudget(restarts, recent, before, now, lim);
    RecentStartsInside(recent, now, lim.window);
    var kept := Recent(recent, now, lim.window);
    var n := |restarts|;
    hide Recent, Spaced;
    if 0 < lim.maxRestarts <= |kept| {
      assert restarts[n - |kept|] == kept[0] && restarts[n - |kept|] <= restarts[n - lim.maxRestarts];
    }
  }

  /**
   A lost worker is started again exactly when the budget allows it at that time. The active request
   gets the loss as its result either way. With a restart the queue waits for the new worker, without
   one every request in it fails and the service is at fault.
   */
  lemma LossOutcome(c: Client, before: nat, state: ResultState, now: nat, raises: Raises, lim: Limits)
    requires BudgetInv(c, before, lim) && before <= now && c.monitor == Watching && c.state != STOPPED
    ensures var d := Run(c, [EvLose(state, now), EvFinishLoss(raises)], lim);
      && d.active.None? && !d.ready && d.monitor == Watching && d.accepted == c.accepted
      && d.delivered == (if c.active.Some? then c.delivered + [Delivery(Verdict(c.active.value, state), raises)] else c.delivered)
      && (if BudgetLeft(c.restarts, now, lim)
          then d.state == DEGRADED && d.restarts == c.restarts + [now] && d.pending == c.pending && d.handing == c.handing
          else
            && d.state == FAULT && d.restarts == c.restarts && d.pending == []
            && |d.handing| == |c.handing| + |c.pending| && d.handing[..|c.handing|] == c.handing
            && forall i :: 0 <= i < |c.pending| ==> d.handing[|c.handing| + i] == Verdict(c.pending[i], FAILED))
  {
    RecentDecidesBudget(c.restarts, c.recent, before, now, lim);
    var events := [EvLose(state, now), EvFinishLoss(raises)];
    assert events[1..] == [EvFinishLoss(raises)] && [EvFinishLoss(raises)][1..] == [];
    var c1 := Lose(c, state, now, lim);
    var c2 := FinishLoss(c1, raises);
    assert Run(c2, [], lim) == c2;
    assert Run(c1, [EvFinishLoss(raises)], lim) == c2;
    hide Recent, BudgetLeft, Run;
  }

  lemma {:induction false} BudgetAtLoss(c: Client, events: seq<Event>, from: nat, state: ResultState, now: nat, lim: Limits)
    requires BudgetInv(c, from, lim) && ClockRuns(events + [EvLose(state, now)], from)
    ensures BudgetInv(Run(c, events, lim), now, lim)
    decreases |events|
  {
    if events == [] {
      assert ([] + [EvLose(state, now)])[0] == EvLose(state, now);
      LaterKeepsBudget(c.restarts, c.recent, from, now, lim);
    } else {
      assert (events + [EvLose(state, now)])[1..] == events[1..] + [EvLose(state, now)];
      assert (events + [EvLose(state, now)])[0] == events[0];
      if events[0].EvLose? {
        LoseKeepsBudget(c, events[0].state, from, events[0].now, lim);
        hide BudgetInv, Lose;
        BudgetAtLoss(Step(c, events[0], lim), events[1..], events[0].now, state, now, lim);
      } else {
        OthersKeepBudget(c, events[0], from, from, lim);
        hide BudgetInv, Step;
        BudgetAtLoss(Step(c, events[0], lim), events[1..], from, state, now, lim);
      }
    }
  }

  /** In every run a loss leads to a restart exactly when the restarts of the whole run leave budget for it. */
  lemma RestartsIffBudgetLeft(events: seq<Event>, state: ResultState, now: nat, raises: Raises, lim: Limits)
    requires ClockRuns(events + [EvLose(state, now)], 0)
    requires var c := Run(STARTED, events, lim); c.monitor == Watching && c.state != STOPPED
    ensures var c := Run(STARTED, events, lim);
      var d := Run(c, [EvLose(state, now), EvFinishLoss(raises)], lim);
      && (d.state == DEGRADED <==> BudgetLeft(c.restarts, now, lim))
      && (d.state == FAULT <==> !BudgetLeft(c.restarts, now, lim))
      && (d.restarts == c.restarts + [now] <==> BudgetLeft(c.restarts, now, lim))
  {
    BudgetAtLoss(STARTED, events, 0, state, now, lim);
    LossOutcome(Run(STARTED, events, lim), now, state, now, raises, lim);
    hide Run, BudgetLeft, BudgetInv;
  }

  function HandOvers(raises: seq<Raises>): seq<Event> {
    seq(|raises|, i requires 0 <= i < |raises| => EvHandOver(raises[i]))
  }

  /** What was handed out reaches the callback in order, one result a step. */
  lemma {:induction false} HandedOutIsDelivered(c: Client, raises: seq<Raises>, lim: Limits)
    requires |raises| == |c.handing|
    ensures var d := Run(c, HandOvers(raises), lim);
      && d.handing == [] && |d.delivered| == |c.delivered| + |raises| && d.delivered[..|c.delivered|] == c.delivered
      && forall i :: 0 <= i < |raises| ==> d.delivered[|c.delivered| + i] == Delivery(c.handing[i], raises[i])
    decreases |raises|
  {
    if raises != [] {
      var c1 := HandOver(c, raises[0]);
      assert HandOvers(raises)[1..] == HandOvers(raises[1..]) && HandOvers(raises)[0] == EvHandOver(raises[0]);
      HandedOutIsDelivered(c1, raises[1..], lim);
      var d := Run(c, HandOvers(raises), lim);
      assert d == Run(c1, HandOvers(raises[1..]), lim);
      hide Run, HandOvers;
      assert d.delivered[..|c.delivered|] == d.delivered[..|c.delivered| + 1][..|c.delivered|] == c.delivered;
      forall i | 0 <= i < |raises| ensures d.delivered[|c.delivered| + i] == Delivery(c.handing[i], raises[i]) {
        if i == 0 {
          assert d.delivered[|c.delivered|] == d.delivered[..|c.delivered| + 1][|c.delivered|];
        } else {
          assert d.delivered[|c1.delivered| + (i - 1)] == Delivery(c1.handing[i - 1], raises[1..][i - 1]);
        }
      }
    }
  }

  // ---------------------------------------------------------------- in place

  class WorkerProcessClient {
    const limits: Limits
    var pending: seq<Request>
    var active: Option<Request>
    var ready: bool
    var state: ServiceState
    var monitor: Monitor
    var recent: seq<nat>
    var handing: seq<Verdict>
    ghost var delivered: seq<Delivery>
    ghost var calls: seq<Call>
    ghost var accepted: seq<Request>
    ghost var restarts: seq<nat>
    var nextToken: nat

    ghost function Value(): Client
      reads this
    {
      Client(pending, active, handing, delivered, accepted, ready, state, monitor, recent, restarts)
    }

    ghost predicate Valid()
      reads this
    {
      nextToken == |accepted| && calls == Calls(delivered)
    }

    constructor (limits: Limits)
      ensures Valid() && Value() == STARTED && this.limits == limits
    {
      this.limits := limits;
      pending, active, ready, state, monitor, recent, nextToken := [], None, false, STARTING, Watching, [], 0;
      handing, delivered, accepted, restarts, calls := [], [], [], [], [];
    }

    method SubmitRequest(key: Key) returns (taken: Option<Request>)
      requires Valid()
      modifies this
      ensures Valid() && Value() == Submit(old(Value()), key, limits)
      ensures taken.Some? <==> Value() != old(Value())
    {
      if state == FAULT || state == STOPPED {
        return None;
      }
      var limit := limits.maxPending;
      if ready && active.None? {
        limit := limit + 1;
      }
      if |pending| >= limit {
        return None;
      }
      var request := Request(nextToken, key);
      pending, nextToken := pending + [request], nextToken + 1;
      accepted := accepted + [request];
      taken := Some(request);
    }

    /** Searches the queue in order and takes out the first request under the key. */
    method CancelPending(key: Key) returns (found: Option<Request>)
      requires Valid()
      modifies this
      ensures Valid() && Value() == Cancel(old(Value()), key)
      ensures found.Some? <==> exists r :: r in old(pending) && r.key == key
    {
      var i := 0;
      while i < |pending| && pending[i].key != key
        invariant i <= |pending|
        invariant forall j :: 0 <= j < i ==> pending[j].key != key
      {
        i := i + 1;
      }
      if i == |pending| {
        assert IndexOf(pending, key) == |pending|;
        return None;
      }
      assert IndexOf(pending, key) == i;
      var request := pending[i];
      assert request in pending;
      pending := pending[..i] + pending[i + 1..];
      handing := handing + [Verdict(request, WORKER_CANCELED)];
      found := Some(request);
    }

    /** Gives the oldest pending request to an idle worker. */
    method DispatchNext() returns (started: Option<Request>)
      requires Valid()
      modifies `pending, `active
      ensures Valid() && Value() == Dispatch(old(Value()))
      ensures started.Some? <==> Value() != old(Value())
    {
      if monitor != Watching || !ready || active.Some? || pending == [] {
        return None;
      }
      started := Some(pending[0]);
      active, pending := started, pending[1..];
    }

    /** Calls the result callback, and once more with a failure record if it raised on anything else. */
    method DeliverResult(verdict: Verdict, raises: Raises)
      requires Valid()
      modifies `delivered, `calls
      ensures Valid() && delivered == old(delivered) + [Delivery(verdict, raises)]
      ensures calls == old(calls) + CallsOf(Delivery(verdict, raises))
    {
      ghost var d := Delivery(verdict, raises);
      assert (delivered + [d])[..|delivered|] == delivered;
      calls := calls + [Call(verdict.request, verdict.state, raises.first)];
      if raises.first {
        if verdict.state != FAILED {
          calls := calls + [Call(verdict.request, FAILED, raises.second)];
        }
      }
      delivered := delivered + [d];
      assert calls == old(calls) + CallsOf(d);
    }

    /** Ownership of the active request ends when its result has been delivered; other results are refused. */
    method HandleResult(key: Key, state: ResultState, raises: Raises) returns (matched: bool)
      requires Valid() && monitor == Watching
      modifies `active, `delivered, `calls
      ensures Valid() && Value() == Answer(old(Value()), key, state, raises)
      ensures matched <==> old(active).Some? && old(active).value.key == key
    {
      hide CallsOf, Calls;
      if active.None? || active.value.key != key {
        return false;
      }
      DeliverResult(Verdict(active.value, state), raises);
      active := None;
      matched := true;
    }

    /** One result taken out of the queue reaches the callback. */
    method HandNext(raises: Raises) returns (any: bool)
      requires Valid()
      modifies `handing, `delivered, `calls
      ensures Valid() && Value() == HandOver(old(Value()), raises)
      ensures any <==> old(handing) != []
    {
      hide CallsOf, Calls;
      if handing == [] {
        return false;
      }
      var next := handing[0];
      handing := handing[1..];
      DeliverResult(next, raises);
      any := true;
    }

    /** Drops the restarts that have left the window, oldest first. */
    method ForgetOld(now: nat)
      modifies `recent
      ensures recent == Recent(old(recent), now, limits.window)
    {
      while recent != [] && now - recent[0] >= limits.window
        invariant Recent(recent, now, limits.window) == Recent(old(recent), now, limits.window)
        decreases |recent|
      {
        recent := recent[1..];
      }
    }

    method HandleLoss(result: ResultState, now: nat) returns (restart: bool)
      requires Valid() && monitor == Watching && state != STOPPED
      modifies this
      ensures Valid() && Value() == Lose(old(Value()), result, now, limits)
      ensures monitor == Losing(restart, result)
    {
      hide Recent;
      ready := false;
      ForgetOld(now);
      if |recent| >= limits.maxRestarts {
        handing := handing + AllFailed(pending);
        pending := [];
        restart := false;
      } else {
        recent := recent + [now];
        restarts := restarts + [now];
        restart := true;
      }
      monitor := Losing(restart, result);
    }

    /** The rest of a loss: the active request gets its result, then the service starts over or is at fault. */
    method EndLoss(raises: Raises) returns (failed: Option<Request>)
      requires Valid() && monitor != Watching
      modifies this
      ensures Valid() && Value() == FinishLoss(old(Value()), raises) && failed == old(active)
    {
      hide CallsOf, Calls;
      failed := active;
      if active.Some? {
        DeliverResult(Verdict(active.value, monitor.state), raises);
      }
      active := None;
      state := if monitor.restart then DEGRADED else FAULT;
      monitor := Watching;
    }
  }
}
