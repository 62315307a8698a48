/**
 Product downlinks on the ground: command receipts assign a transfer id to a request, file
 telemetry reports progress under the transfer id. File reports that come before the receipt
 are kept aside and merged in when it arrives.
 */
module DownlinkLedger {
  import opened Bytes
  import OutboxModel

  type Key = OutboxModel.Key

  datatype TransferState = ADMITTED | DISPATCHED | RECEIVING | VERIFIED | FAILED | CANCELED

  function Rank(s: TransferState): nat {
    match s
    case ADMITTED => 0
    case DISPATCHED => 1
    case RECEIVING => 2
    case VERIFIED => 3
    case FAILED => 3
    case CANCELED => 3
  }

  /** A later report replaces the state unless it ranks lower or the state is final. */
  function Merge(current: TransferState, candidate: TransferState): TransferState {
    if Rank(candidate) < Rank(current) then current
    else if Rank(current) == 3 && current != candidate then current
    else candidate
  }

  /** The merge keeps the first report of the highest rank: associative, idempotent, never lower. */
  lemma MergeIsFirstHighest(a: TransferState, b: TransferState, c: TransferState)
    ensures Merge(Merge(a, b), c) == Merge(a, Merge(b, c))
    ensures Merge(a, a) == a
    ensures Merge(a, b) == if Rank(b) > Rank(a) then b else a
    ensures Rank(Merge(a, b)) == if Rank(b) > Rank(a) then Rank(b) else Rank(a)
    ensures Rank(a) == 3 ==> Merge(a, b) == a
  {
  }

  function Fold(s: TransferState, reports: seq<TransferState>): TransferState {
    if reports == [] then s else Merge(Fold(s, reports[..|reports| - 1]), reports[|reports| - 1])
  }

  /** Reports collected on their own and merged in afterwards count as if they had come one by one. */
  lemma {:induction false} FoldThroughMerge(s: TransferState, first: TransferState, reports: seq<TransferState>)
    ensures Fold(s, [first] + reports) == Merge(s, Fold(first, reports))
  {
    var all := [first] + reports;
    if reports == [] {
      assert all[..0] == [];
      assert all == [first];
    } else {
      var init, last := reports[..|reports| - 1], reports[|reports| - 1];
      assert all[..|all| - 1] == [first] + init;
      FoldThroughMerge(s, first, init);
      MergeIsFirstHighest(s, Fold(first, init), last);
    }
  }

  lemma {:induction false} FoldConcat(s: TransferState, a: seq<TransferState>, b: seq<TransferState>)
    ensures Fold(s, a + b) == Fold(Fold(s, a), b)
  {
    if b == [] {
      assert a + b == a;
    } else {
      assert (a + b)[..|a + b| - 1] == a + b[..|b| - 1];
      FoldConcat(s, a, b[..|b| - 1]);
    }
  }

  // ---------------------------------------------------------------- tables

  datatype Product = Product(instance: nat, bootId: nat, productId: nat)

  /** A file report's identity: its product and transfer id. */
  datatype FileKey = FileKey(product: Product, transferId: nat)

  datatype Row = Row(product: Product, transferId: Option<nat>, state: TransferState)

  datatype Pending = Pending(state: TransferState, expiresAt: int)

  datatype Ledger = Ledger(rows: map<Key, Row>, pending: map<FileKey, Pending>)

  datatype LedgerError = OtherTransfer | TransferTaken | NoTransferYet

  /** Unmatched file reports are dropped when their time is over. */
  function Expire(l: Ledger, now: int): Ledger {
    l.(pending := map f | f in l.pending && now < l.pending[f].expiresAt :: l.pending[f])
  }

  predicate Holds(l: Ledger, k: Key, instance: nat, transferId: nat) {
    k in l.rows && l.rows[k].product.instance == instance && l.rows[k].transferId == Some(transferId)
  }

  ghost predicate TakenByOther(l: Ledger, k: Key, instance: nat, transferId: nat) {
    exists j :: j != k && Holds(l, j, instance, transferId)
  }

  function Correlate(l: Ledger, k: Key, transferId: nat, assign: bool, state: TransferState): Ledger
    requires k in l.rows
  {
    var row := l.rows[k];
    var file := FileKey(row.product, transferId);
    var told := Merge(row.state, state);
    var merged := if file in l.pending then Merge(told, l.pending[file].state) else told;
    Ledger(l.rows[k := Row(row.product, if assign then Some(transferId) else row.transferId, merged)],
           map f | f in l.pending && f != file :: l.pending[f])
  }

  /** A receipt about a request, with or without a transfer id; one about an unknown request changes no row. */
  ghost function Receipt(before: Ledger, k: Key, transferId: Option<nat>, state: TransferState, now: int): Result<Ledger, LedgerError> {
    var l := Expire(before, now);
    if k !in l.rows then Ok(l)
    else
      var known := l.rows[k].transferId;
      if known.Some? && transferId.Some? && known != transferId then Err(OtherTransfer)
      else if transferId.None? then
        if known.None? then Err(NoTransferYet) else Ok(Correlate(l, k, known.value, false, state))
      else if TakenByOther(l, k, l.rows[k].product.instance, transferId.value) then Err(TransferTaken)
      else Ok(Correlate(l, k, transferId.value, true, state))
  }

  predicate Matches(l: Ledger, k: Key, f: FileKey) {
    k in l.rows && l.rows[k].product == f.product && l.rows[k].transferId == Some(f.transferId)
  }

  /** A file report: to the matching row, or kept aside for `ttl`. */
  ghost function FileReport(before: Ledger, f: FileKey, state: TransferState, now: int, ttl: nat): Ledger {
    var l := Expire(before, now);
    if exists k :: Matches(l, k, f) then
      var k :| Matches(l, k, f);
      l.(rows := l.rows[k := l.rows[k].(state := Merge(l.rows[k].state, state))])
    else if f in l.pending then l.(pending := l.pending[f := l.pending[f].(state := Merge(l.pending[f].state, state))])
    else l.(pending := l.pending[f := Pending(state, now + ttl)])
  }

  /** A transfer id belongs to at most one request of a spacecraft, and a matched report is not kept aside. */
  ghost predicate LedgerInv(l: Ledger) {
    && (forall j, k, i, t :: Holds(l, j, i, t) && Holds(l, k, i, t) ==> j == k)
    && (forall k, f :: Matches(l, k, f) ==> f !in l.pending)
  }

  datatype LedgerEvent =
    | ReceiptOf(key: Key, transferId: Option<nat>, state: TransferState, now: int)
    | ReportOf(file: FileKey, state: TransferState, now: int)
    | ExpireAt(now: int)

  ghost function LedgerStep(l: Ledger, ev: LedgerEvent, ttl: nat): Ledger {
    match ev
    case ReceiptOf(k, t, s, now) => var r := Receipt(l, k, t, s, now); if r.Ok? then r.value else l
    case ReportOf(f, s, now) => FileReport(l, f, s, now, ttl)
    case ExpireAt(now) => Expire(l, now)
  }

  lemma ExpireKeepsInv(l: Ledger, now: int)
    requires LedgerInv(l)
    ensures LedgerInv(Expire(l, now))
  {
    forall k, f | Matches(Expire(l, now), k, f) ensures f !in Expire(l, now).pending {
      assert Matches(l, k, f);
    }
    forall i, j, n, t | Holds(Expire(l, now), i, n, t) && Holds(Expire(l, now), j, n, t) ensures i == j {
      assert Holds(l, i, n, t) && Holds(l, j, n, t);
    }
  }

  lemma ReceiptKeepsInv(l: Ledger, k: Key, transferId: Option<nat>, state: TransferState, now: int)
    requires LedgerInv(l) && Receipt(l, k, transferId, state, now).Ok?
    ensures LedgerInv(Receipt(l, k, transferId, state, now).value)
  {
    var e, d := Expire(l, now), Receipt(l, k, transferId, state, now).value;
    ExpireKeepsInv(l, now);
    hide Merge, Expire;
    forall j, g | Matches(d, j, g) ensures g !in d.pending {
      if j != k {
        assert Matches(e, j, g);
      }
    }
    assert forall j, n, t :: j != k && Holds(d, j, n, t) ==> Holds(e, j, n, t);
    assert transferId.None? ==> forall n, t :: Holds(d, k, n, t) ==> Holds(e, k, n, t);
  }

  lemma ReportKeepsInv(l: Ledger, f: FileKey, state: TransferState, now: int, ttl: nat)
    requires LedgerInv(l)
    ensures LedgerInv(FileReport(l, f, state, now, ttl))
  {
    var e, d := Expire(l, now), FileReport(l, f, state, now, ttl);
    ExpireKeepsInv(l, now);
    hide Merge, Expire;
    forall j, g | Matches(d, j, g) ensures g !in d.pending {
      assert Matches(e, j, g);
    }
    forall i, j, n, t | Holds(d, i, n, t) && Holds(d, j, n, t) ensures i == j {
      assert Holds(e, i, n, t) && Holds(e, j, n, t);
    }
  }

  lemma LedgerStepKeepsInv(l: Ledger, ev: LedgerEvent, ttl: nat)
    requires LedgerInv(l)
    ensures LedgerInv(LedgerStep(l, ev, ttl))
  {
    hide LedgerInv;
    match ev
    case ReceiptOf(k, t, s, now) => if Receipt(l, k, t, s, now).Ok? { ReceiptKeepsInv(l, k, t, s, now); }
    case ReportOf(f, s, now) => ReportKeepsInv(l, f, s, now, ttl);
    case ExpireAt(now) => ExpireKeepsInv(l, now);
  }

  // ---------------------------------------------------------------- deferral is invisible

  /** The file reports about f in a list of events. */
  function ReportsOn(events: seq<LedgerEvent>, f: FileKey): seq<TransferState> {
    if events == [] then []
    else
      var last := events[|events| - 1];
      ReportsOn(events[..|events| - 1], f) + (if last.ReportOf? && last.file == f then [last.state] else [])
  }

  function TimeOf(ev: LedgerEvent): int {
    ev.now
  }

  /** Before the transfer id is assigned: no receipt assigns one to this request, or this one to another request. */
  predicate Elsewhere(ev: LedgerEvent, k: Key, f: FileKey) {
    ev.ReceiptOf? ==> if ev.key == k then ev.transferId.None? else ev.transferId != Some(f.transferId)
  }

  /** What an event tells a request that owns the transfer id: a file report, or a further receipt that does not contradict it. */
  function Tells(ev: LedgerEvent, k: Key, f: FileKey): Option<TransferState> {
    match ev
    case ReportOf(file, state, _) => if file == f then Some(state) else None
    case ReceiptOf(key, id, state, _) => if key == k && (id.None? || id == Some(f.transferId)) then Some(state) else None
    case ExpireAt(_) => None
  }

  /** All that a list of events tells it, in order. */
  function ToldBy(events: seq<LedgerEvent>, k: Key, f: FileKey): seq<TransferState> {
    if events == [] then []
    else
      var last := Tells(events[|events| - 1], k, f);
      ToldBy(events[..|events| - 1], k, f) + (if last.Some? then [last.value] else [])
  }

  /** All events happen within the time a deferred report is kept. */
  predicate InTime(events: seq<LedgerEvent>, begin: int, ttl: nat) {
    forall ev :: ev in events ==> begin <= TimeOf(ev) < begin + ttl
  }

  ghost function LedgerRun(l: Ledger, events: seq<LedgerEvent>, ttl: nat): Ledger {
    if events == [] then l else LedgerStep(LedgerRun(l, events[..|events| - 1], ttl), events[|events| - 1], ttl)
  }

  /** Nobody owns the transfer id yet, the request's row is as it was, and the reports are kept aside, folded. */
  ghost predicate Deferred(l: Ledger, k: Key, f: FileKey, row: Row, reports: seq<TransferState>, begin: int, ttl: nat) {
    && LedgerInv(l)
    && k in l.rows && l.rows[k] == row
    && (forall j :: !Holds(l, j, f.product.instance, f.transferId))
    && (reports == [] ==> f !in l.pending)
    && (reports != [] ==> f in l.pending && l.pending[f].state == Fold(reports[0], reports[1..]) && begin + ttl <= l.pending[f].expiresAt)
  }

  lemma NothingMatches(l: Ledger, f: FileKey)
    requires forall j :: !Holds(l, j, f.product.instance, f.transferId)
    ensures forall j :: !Matches(l, j, f)
  {
    forall j ensures !Matches(l, j, f) {
      assert !Holds(l, j, f.product.instance, f.transferId);
    }
  }

  lemma DeferOne(l: Ledger, k: Key, f: FileKey, row: Row, reports: seq<TransferState>, ev: LedgerEvent, begin: int, ttl: nat)
    requires Deferred(l, k, f, row, reports, begin, ttl) && row.transferId.None?
    requires Elsewhere(ev, k, f) && begin <= TimeOf(ev) < begin + ttl
    ensures Deferred(LedgerStep(l, ev, ttl), k, f, row,
                     reports + (if ev.ReportOf? && ev.file == f then [ev.state] else []), begin, ttl)
  {
    var e, d := Expire(l, ev.now), LedgerStep(l, ev, ttl);
    LedgerStepKeepsInv(l, ev, ttl);
    assert forall j :: Holds(e, j, f.product.instance, f.transferId) ==> Holds(l, j, f.product.instance, f.transferId);
    NothingMatches(e, f);
    hide LedgerInv, Merge, Fold;
    forall j ensures !Holds(d, j, f.product.instance, f.transferId) {
      assert !Holds(e, j, f.product.instance, f.transferId);
    }
    if ev.ReceiptOf? {
      assert !Holds(e, ev.key, f.product.instance, f.transferId);
    }
    if ev.ReportOf? && ev.file == f {
      FoldGrows(reports, ev.state);
    } else {
      assert reports + [] == reports;
    }
  }

  lemma FoldGrows(reports: seq<TransferState>, s: TransferState)
    ensures reports == [] ==> Fold((reports + [s])[0], (reports + [s])[1..]) == s
    ensures reports != [] ==> Fold((reports + [s])[0], (reports + [s])[1..]) == Merge(Fold(reports[0], reports[1..]), s)
  {
    if reports != [] {
      var rest := (reports + [s])[1..];
      assert rest[..|rest| - 1] == reports[1..];
    }
  }

  lemma {:induction false} DeferAll(l: Ledger, k: Key, f: FileKey, events: seq<LedgerEvent>, begin: int, ttl: nat)
    requires LedgerInv(l) && k in l.rows && l.rows[k].transferId.None? && f !in l.pending
    requires forall j :: !Holds(l, j, f.product.instance, f.transferId)
    requires (forall ev :: ev in events ==> Elsewhere(ev, k, f)) && InTime(events, begin, ttl)
    ensures Deferred(LedgerRun(l, events, ttl), k, f, l.rows[k], ReportsOn(events, f), begin, ttl)
  {
    if events != [] {
      var init, last := events[..|events| - 1], events[|events| - 1];
      assert last in events && forall ev :: ev in init ==> ev in events;
      DeferAll(l, k, f, init, begin, ttl);
      hide Deferred, LedgerStep, Elsewhere;
      DeferOne(LedgerRun(l, init, ttl), k, f, l.rows[k], ReportsOn(init, f), last, begin, ttl);
    }
  }

  /** The request owns the transfer id and its state is s. */
  ghost predicate Owns(l: Ledger, k: Key, f: FileKey, s: TransferState) {
    LedgerInv(l) && Matches(l, k, f) && l.rows[k].state == s
  }

  /** The receipt merges its own state first and the deferred reports after it. */
  lemma ReceiptMergesDeferred(l: Ledger, k: Key, f: FileKey, row: Row, reports: seq<TransferState>, s: TransferState, now: int,
                              begin: int, ttl: nat)
    requires Deferred(l, k, f, row, reports, begin, ttl) && row.transferId.None? && row.product == f.product
    requires begin <= now < begin + ttl
    ensures Owns(LedgerStep(l, ReceiptOf(k, Some(f.transferId), s, now), ttl), k, f, Fold(Merge(row.state, s), reports))
  {
    LedgerStepKeepsInv(l, ReceiptOf(k, Some(f.transferId), s, now), ttl);
    var e := Expire(l, now);
    assert !TakenByOther(e, k, f.product.instance, f.transferId) by {
      forall j ensures !Holds(e, j, f.product.instance, f.transferId) {
        assert !Holds(l, j, f.product.instance, f.transferId);
      }
    }
    if reports != [] {
      assert reports == [reports[0]] + reports[1..];
      FoldThroughMerge(Merge(row.state, s), reports[0], reports[1..]);
    }
    hide LedgerInv, Merge;
  }

  /** A receipt for the owner of the transfer id merges its state, contradicts it and is refused, or concerns another request. */
  lemma OwnedReceipt(l: Ledger, k: Key, f: FileKey, s: TransferState, ev: LedgerEvent, ttl: nat)
    requires Owns(l, k, f, s) && ev.ReceiptOf?
    ensures Owns(LedgerStep(l, ev, ttl), k, f, if Tells(ev, k, f).Some? then Merge(s, ev.state) else s)
  {
    LedgerStepKeepsInv(l, ev, ttl);
    var e := Expire(l, ev.now);
    ExpireKeepsInv(l, ev.now);
    assert Matches(e, k, f) && f !in e.pending;
    assert Holds(e, k, f.product.instance, f.transferId);
    if ev.key == k && ev.transferId == Some(f.transferId) {
      NotTaken(e, k, f);
    }
    if ev.key != k && ev.transferId == Some(f.transferId) && ev.key in e.rows && e.rows[ev.key].product.instance == f.product.instance {
      assert TakenByOther(e, ev.key, f.product.instance, f.transferId);
    }
    hide LedgerInv, Merge, Expire, TakenByOther;
  }

  lemma NotTaken(l: Ledger, k: Key, f: FileKey)
    requires LedgerInv(l) && Matches(l, k, f)
    ensures !TakenByOther(l, k, f.product.instance, f.transferId)
  {
    assert Holds(l, k, f.product.instance, f.transferId);
  }

  lemma OwnedReport(l: Ledger, k: Key, f: FileKey, s: TransferState, ev: LedgerEvent, ttl: nat)
    requires Owns(l, k, f, s) && !ev.ReceiptOf?
    ensures Owns(LedgerStep(l, ev, ttl), k, f, if ev.ReportOf? && ev.file == f then Merge(s, ev.state) else s)
  {
    LedgerStepKeepsInv(l, ev, ttl);
    var e := Expire(l, ev.now);
    ExpireKeepsInv(l, ev.now);
    assert Matches(e, k, f);
    if ev.ReportOf? {
      forall j | Matches(e, j, ev.file) && j == k ensures ev.file == f {
      }
      forall j | Matches(e, j, f) ensures j == k {
        assert Holds(e, j, f.product.instance, f.transferId) && Holds(e, k, f.product.instance, f.transferId);
      }
    }
    hide LedgerInv, Merge, Expire;
  }

  /** Once the transfer id is assigned nothing but what is told about it changes the request's state. */
  lemma {:induction false} OwnedEvents(l: Ledger, k: Key, f: FileKey, s: TransferState, events: seq<LedgerEvent>, ttl: nat)
    requires Owns(l, k, f, s)
    ensures Owns(LedgerRun(l, events, ttl), k, f, Fold(s, ToldBy(events, k, f)))
  {
    if events != [] {
      var init, last := events[..|events| - 1], events[|events| - 1];
      OwnedEvents(l, k, f, s, init, ttl);
      hide Owns, LedgerStep;
      var now := Fold(s, ToldBy(init, k, f));
      if last.ReceiptOf? {
        OwnedReceipt(LedgerRun(l, init, ttl), k, f, now, last, ttl);
      } else {
        OwnedReport(LedgerRun(l, init, ttl), k, f, now, last, ttl);
      }
      FoldSnoc(s, ToldBy(init, k, f), if Tells(last, k, f).Some? then Tells(last, k, f).value else RECEIVING, Tells(last, k, f).Some?);
    }
  }

  lemma FoldSnoc(s: TransferState, reports: seq<TransferState>, r: TransferState, more: bool)
    ensures Fold(s, reports + (if more then [r] else [])) == if more then Merge(Fold(s, reports), r) else Fold(s, reports)
  {
    if more {
      assert (reports + [r])[..|reports|] == reports;
    } else {
      assert reports + [] == reports;
    }
  }

  /**
   However many file reports come before the receipt that assigns the transfer id, and whatever
   happens afterwards, the request ends in the state of folding that receipt, then all file
   reports before it, then all file reports and further receipts after it in their order, unless
   a deferred report runs out of time. A receipt that names another transfer id counts for nothing.
   */
  lemma DeferralIsInvisible(l: Ledger, k: Key, f: FileKey, before: seq<LedgerEvent>, receipt: TransferState, now: int,
                            after: seq<LedgerEvent>, begin: int, ttl: nat)
    requires LedgerInv(l) && k in l.rows && l.rows[k].product == f.product && l.rows[k].transferId.None? && f !in l.pending
    requires forall j :: !Holds(l, j, f.product.instance, f.transferId)
    requires forall ev :: ev in before ==> Elsewhere(ev, k, f)
    requires InTime(before, begin, ttl) && begin <= now < begin + ttl
    ensures var d := LedgerRun(LedgerStep(LedgerRun(l, before, ttl), ReceiptOf(k, Some(f.transferId), receipt, now), ttl), after, ttl);
      && Matches(d, k, f)
      && d.rows[k].state == Fold(Merge(l.rows[k].state, receipt), ReportsOn(before, f) + ToldBy(after, k, f))
  {
    DeferAll(l, k, f, before, begin, ttl);
    var deferred := LedgerRun(l, before, ttl);
    ReceiptMergesDeferred(deferred, k, f, l.rows[k], ReportsOn(before, f), receipt, now, begin, ttl);
    var owned := LedgerStep(deferred, ReceiptOf(k, Some(f.transferId), receipt, now), ttl);
    OwnedEvents(owned, k, f, Fold(Merge(l.rows[k].state, receipt), ReportsOn(before, f)), after, ttl);
    FoldConcat(Merge(l.rows[k].state, receipt), ReportsOn(before, f), ToldBy(after, k, f));
    hide Fold, LedgerRun, LedgerStep, ReportsOn, ToldBy, Deferred, Elsewhere, InTime;
  }

  /** A receipt fails for want of a transfer id exactly when the request is known, has none, and the receipt brings none. */
  lemma NoTransferYetIff(l: Ledger, k: Key, transferId: Option<nat>, state: TransferState, now: int)
    ensures Receipt(l, k, transferId, state, now) == Err(NoTransferYet) <==>
      k in l.rows && l.rows[k].transferId.None? && transferId.None?
  {
    hide Correlate, TakenByOther;
  }

  /**
   A receipt is refused for its transfer id exactly when its request has another one, or when it
   has none or this one and another request of the spacecraft has it.
   */
  lemma ReceiptRefusedIff(l: Ledger, k: Key, transferId: Option<nat>, state: TransferState, now: int)
    ensures Receipt(l, k, transferId, state, now) == Err(OtherTransfer) <==>
      k in l.rows && transferId.Some? && l.rows[k].transferId.Some? && l.rows[k].transferId != transferId
    ensures Receipt(l, k, transferId, state, now) == Err(TransferTaken) <==>
      k in l.rows && transferId.Some? && (l.rows[k].transferId.None? || l.rows[k].transferId == transferId)
      && exists j :: j != k && Holds(l, j, l.rows[k].product.instance, transferId.value)
  {
    hide Correlate;
    var e := Expire(l, now);
    assert forall j, i, t :: Holds(e, j, i, t) <==> Holds(l, j, i, t);
  }

  /** A deferred report that still has time stays until a receipt ties it to a request; further reports merge into it. */
  lemma DeferredStaysUnlessMatched(l: Ledger, ev: LedgerEvent, f: FileKey, ttl: nat)
    requires LedgerInv(l) && f in l.pending && ev.now < l.pending[f].expiresAt
    ensures var d := LedgerStep(l, ev, ttl);
      && (f !in d.pending <==> ev.ReceiptOf? && Matches(d, ev.key, f))
      && (f in d.pending ==>
            d.pending[f] == Pending(if ev.ReportOf? && ev.file == f then Merge(l.pending[f].state, ev.state) else l.pending[f].state,
                                    l.pending[f].expiresAt))
  {
    var e := Expire(l, ev.now);
    forall j ensures !Matches(e, j, f) {
      assert !Matches(l, j, f);
    }
    hide Merge;
  }

  /** One out of time is gone after any event that is not refused, even a receipt for an unknown request; a new report starts over. */
  lemma OverdueIsDropped(l: Ledger, ev: LedgerEvent, f: FileKey, ttl: nat)
    requires f in l.pending && l.pending[f].expiresAt <= ev.now
    requires ev.ReceiptOf? ==> Receipt(l, ev.key, ev.transferId, ev.state, ev.now).Ok?
    ensures var d := LedgerStep(l, ev, ttl);
      f in d.pending ==> ev.ReportOf? && ev.file == f && d.pending[f].state == ev.state
  {
    hide Merge, TakenByOther;
  }

  /** A report nobody owns is kept for exactly its time to live. */
  lemma DeferredForItsTime(l: Ledger, f: FileKey, state: TransferState, now: int, later: int, ttl: nat)
    requires (forall k :: !Matches(l, k, f)) && f !in l.pending
    ensures f in LedgerRun(l, [ReportOf(f, state, now), ExpireAt(later)], ttl).pending <==> later < now + ttl
  {
    var e := Expire(l, now);
    assert forall k :: Matches(e, k, f) ==> Matches(l, k, f);
    var events := [ReportOf(f, state, now), ExpireAt(later)];
    assert events[..1] == [events[0]] && events[..1][..0] == [];
    assert LedgerRun(l, events[..1], ttl) == LedgerStep(l, events[0], ttl);
    hide Merge;
  }

  // ---------------------------------------------------------------- in place

  class ProductDownlinks {
    var rows: map<Key, Row>
    var pending: map<FileKey, Pending>

    function Value(): Ledger
      reads this
    {
      Ledger(rows, pending)
    }

    /** The row that owns a file report, if any. */
    method FindOwner(f: FileKey) returns (owner: Option<Key>)
      ensures owner.None? ==> forall k :: !Matches(Value(), k, f)
      ensures owner.Some? ==> Matches(Value(), owner.value, f)
    {
      var todo := rows.Keys;
      while todo != {}
        invariant todo <= rows.Keys
        invariant forall k :: Matches(Value(), k, f) ==> k in todo
        decreases todo
      {
        var k :| k in todo;
        if Matches(Value(), k, f) {
          return Some(k);
        }
        todo := todo - {k};
      }
      owner := None;
    }

    /** Drops the reports whose time is over, one at a time. */
    method DropExpired(now: int) returns (dropped: nat)
      modifies `pending
      ensures Value() == Expire(old(Value()), now)
      ensures dropped == |old(pending)| - |pending|
    {
      ghost var before := pending;
      var todo := pending.Keys;
      dropped := 0;
      while todo != {}
        invariant todo <= pending.Keys
        invariant forall f :: f in pending <==> f in before && (f in todo || now < before[f].expiresAt)
        invariant forall f :: f in pending ==> pending[f] == before[f]
        invariant dropped + |pending| == |before|
        decreases todo
      {
        var f :| f in todo;
        if pending[f].expiresAt <= now {
          OneLess(pending, f);
          pending := map g | g in pending && g != f :: pending[g];
          dropped := dropped + 1;
        }
        todo := todo - {f};
      }
      assert pending == Expire(Ledger(rows, before), now).pending;
    }

    /** Correlates a receipt with its request: the transfer id is fixed once, deferred reports are merged and dropped. */
    method UpdateTransfer(k: Key, transferId: Option<nat>, state: TransferState, now: int) returns (r: Result<bool, LedgerError>)
      modifies this
      ensures var spec := Receipt(old(Value()), k, transferId, state, now);
        && (spec.Ok? ==> Value() == spec.value && r == Ok(old(k in rows)))
        && (spec.Err? ==> Value() == old(Value()) && r == Err(spec.error))
    {
      hide Expire, Merge, TakenByOther;
      ghost var before := Value();
      var kept := pending;
      var dropped := DropExpired(now);
      ghost var l := Value();
      assert l == Expire(before, now) && l.rows == before.rows;
      if k !in rows {
        return Ok(false);
      }
      var row := rows[k];
      if row.transferId.Some? && transferId.Some? && row.transferId != transferId {
        pending := kept;
        return Err(OtherTransfer);
      }
      if transferId.None? && row.transferId.None? {
        pending := kept;
        return Err(NoTransferYet);
      }
      var id := if transferId.None? then row.transferId.value else transferId.value;
      if transferId.Some? {
        var taken := FindTaker(rows, pending, k, row.product.instance, id);
        if taken {
          pending := kept;
          return Err(TransferTaken);
        }
      }
      var file, next := FileKey(row.product, id), Merge(row.state, state);
      if file in pending {
        next := Merge(next, pending[file].state);
      }
      rows := rows[k := Row(row.product, if row.transferId.Some? then row.transferId else transferId, next)];
      pending := map f | f in pending && f != file :: pending[f];
      r := Ok(true);
    }

    /** A file report goes to its owner, or is kept aside and merged with what is already there. */
    method UpdateFileState(f: FileKey, state: TransferState, now: int, ttl: nat) returns (owner: Option<Key>)
      requires LedgerInv(Value())
      modifies this
      ensures LedgerInv(Value())
      ensures Value() == FileReport(old(Value()), f, state, now, ttl)
    {
      ReportKeepsInv(Value(), f, state, now, ttl);
      ExpireKeepsInv(Value(), now);
      hide LedgerInv, Expire, Merge;
      var dropped := DropExpired(now);
      ghost var e := Value();
      owner := FindOwner(f);
      if owner.None? {
        forall k ensures !Matches(e, k, f) {
          assert !Matches(Value(), k, f);
        }
      }
      if owner.Some? {
        OneOwner(e, f, owner.value);
        assert exists k :: Matches(e, k, f);
        rows := rows[owner.value := rows[owner.value].(state := Merge(rows[owner.value].state, state))];
      } else if f in pending {
        pending := pending[f := pending[f].(state := Merge(pending[f].state, state))];
      } else {
        pending := pending[f := Pending(state, now + ttl)];
      }
    }
  }

  /** Whether another request of the spacecraft already has the transfer id. */
  method FindTaker(rows: map<Key, Row>, ghost pending: map<FileKey, Pending>, k: Key, instance: nat, transferId: nat)
    returns (taken: bool)
    ensures taken <==> TakenByOther(Ledger(rows, pending), k, instance, transferId)
  {
    ghost var l := Ledger(rows, pending);
    var todo := rows.Keys;
    while todo != {}
      invariant todo <= rows.Keys
      invariant forall j :: j != k && Holds(l, j, instance, transferId) ==> j in todo
      decreases todo
    {
      var j :| j in todo;
      if j != k && rows[j].product.instance == instance && rows[j].transferId == Some(transferId) {
        assert Holds(l, j, instance, transferId);
        return true;
      }
      todo := todo - {j};
    }
    taken := false;
  }

  lemma OneLess(m: map<FileKey, Pending>, f: FileKey)
    requires f in m
    ensures |map g | g in m && g != f :: m[g]| == |m| - 1
  {
    assert (map g | g in m && g != f :: m[g]).Keys == m.Keys - {f};
  }

  lemma OneOwner(l: Ledger, f: FileKey, k: Key)
    requires LedgerInv(l) && Matches(l, k, f)
    ensures forall j :: Matches(l, j, f) ==> j == k
  {
    assert Holds(l, k, f.product.instance, f.transferId);
    assert forall j :: Matches(l, j, f) ==> Holds(l, j, f.product.instance, f.transferId);
  }
}
