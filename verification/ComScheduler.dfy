/**
 The three-queue downlink scheduler: acknowledgements first with a burst limit, then a relief of
 one control and one file frame, and control before file with its own burst limit.
 */
module ComScheduler {
  import opened Bytes

  datatype Kind = ACK | CONTROL | FILE

  /** Which queues hold something when a pick is made. */
  datatype Waiting = Waiting(ack: bool, control: bool, file: bool)

  datatype Bursts = Bursts(ack: nat, control: nat)

  /** Consecutive ACK and CONTROL picks and the relief stage reached. */
  datatype Turn = Turn(ackRun: nat, controlRun: nat, stage: nat)

  const FIRST: Turn := Turn(0, 0, 0)

  /** One unkeyed selection. */
  function Select(t: Turn, w: Waiting, b: Bursts): (Option<Kind>, Turn) {
    if !w.ack && !w.control && !w.file then (None, t)
    else if w.ack then
      if t.ackRun >= b.ack && (w.control || w.file) then
        var stage := if t.stage == 0 then 1 else t.stage;
        if stage == 1 && w.control then (Some(CONTROL), t.(stage := 2))
        else if w.file then (Some(FILE), t.(stage := 0, ackRun := 0))
        else (Some(ACK), Turn(1, 0, 0))
      else (Some(ACK), t.(ackRun := t.ackRun + 1, controlRun := 0))
    else if w.control then
      if t.controlRun < b.control || !w.file then (Some(CONTROL), Turn(0, t.controlRun + 1, 0))
      else (Some(FILE), Turn(0, 0, 0))
    else (Some(FILE), Turn(0, 0, 0))
  }

  /** Control runs and acknowledgement runs exclude each other; relief is pending only after a full burst. */
  predicate TurnInv(t: Turn, b: Bursts) {
    && (t.stage == 0 || t.stage == 2)
    && (t.stage == 2 ==> t.ackRun >= b.ack)
    && (t.controlRun > 0 ==> t.ackRun == 0 && t.stage == 0)
  }

  lemma SelectKeepsInv(t: Turn, w: Waiting, b: Bursts)
    requires TurnInv(t, b) && 0 < b.ack && 0 < b.control
    ensures TurnInv(Select(t, w, b).1, b)
    ensures Select(t, w, b).0.None? <==> !w.ack && !w.control && !w.file
    ensures Select(t, w, b).0 == Some(ACK) ==> w.ack
    ensures Select(t, w, b).0 == Some(CONTROL) ==> w.control
    ensures Select(t, w, b).0 == Some(FILE) ==> w.file
  {
  }

  /** The picks of a run in which anything may be enqueued between two picks. */
  function Picks(t: Turn, ws: seq<Waiting>, b: Bursts): seq<Option<Kind>>
    decreases |ws|
  {
    if ws == [] then [] else [Select(t, ws[0], b).0] + Picks(Select(t, ws[0], b).1, ws[1..], b)
  }

  predicate NeverPicked(picks: seq<Option<Kind>>, k: Kind) {
    forall p :: p in picks ==> p != Some(k)
  }

  lemma FirstPick(t: Turn, ws: seq<Waiting>, b: Bursts, k: Kind)
    requires ws != [] && NeverPicked(Picks(t, ws, b), k)
    ensures Select(t, ws[0], b).0 != Some(k)
    ensures NeverPicked(Picks(Select(t, ws[0], b).1, ws[1..], b), k)
  {
    var rest := Picks(Select(t, ws[0], b).1, ws[1..], b);
    assert Picks(t, ws, b) == [Select(t, ws[0], b).0] + rest;
    assert Picks(t, ws, b)[0] in Picks(t, ws, b);
    forall p | p in rest ensures p in Picks(t, ws, b) {
      var i :| 0 <= i < |rest| && rest[i] == p;
      assert Picks(t, ws, b)[i + 1] == p;
    }
    hide Select;
  }

  /** How many other picks can still come before a waiting CONTROL frame. */
  function ControlRank(t: Turn, b: Bursts): nat {
    if t.stage == 2 || t.controlRun >= b.control then b.ack + 1
    else if t.ackRun < b.ack then b.ack - t.ackRun else 0
  }

  lemma {:induction false} ControlWaitsAtMost(t: Turn, ws: seq<Waiting>, b: Bursts)
    requires TurnInv(t, b) && 0 < b.ack && 0 < b.control
    requires (forall w :: w in ws ==> w.control) && NeverPicked(Picks(t, ws, b), CONTROL)
    ensures |ws| <= ControlRank(t, b) <= b.ack + 1
    decreases |ws|
  {
    if ws != [] {
      FirstPick(t, ws, b, CONTROL);
      SelectKeepsInv(t, ws[0], b);
      assert ws[0] in ws;
      ControlWaitsAtMost(Select(t, ws[0], b).1, ws[1..], b);
    }
  }

  function AckRank(t: Turn, b: Bursts): nat {
    if t.ackRun < b.ack then 0 else if t.stage == 2 then 1 else 2
  }

  lemma {:induction false} AckWaitsAtMost(t: Turn, ws: seq<Waiting>, b: Bursts)
    requires TurnInv(t, b) && 0 < b.ack && 0 < b.control
    requires (forall w :: w in ws ==> w.ack) && NeverPicked(Picks(t, ws, b), ACK)
    ensures |ws| <= AckRank(t, b) <= 2
    decreases |ws|
  {
    if ws != [] {
      FirstPick(t, ws, b, ACK);
      SelectKeepsInv(t, ws[0], b);
      assert ws[0] in ws;
      AckWaitsAtMost(Select(t, ws[0], b).1, ws[1..], b);
    }
  }

  // ---------------------------------------------------------------- exactly when FILE is served

  /** Picks before relief that an ACK stretch can take from here: the rest of the burst and one CONTROL frame. */
  function AckLeft(t: Turn, b: Bursts): nat {
    if t.stage == 2 then 0 else (if t.ackRun < b.ack then b.ack - t.ackRun else 0) + 1
  }

  /** CONTROL picks that a stretch without ACK can take from here. */
  function ControlLeft(t: Turn, b: Bursts): nat {
    if t.controlRun < b.control then b.control - t.controlRun else 0
  }

  /** ACK is waiting at all of i to j, or at none of them. */
  predicate SameThrough(ws: seq<Waiting>, i: nat, j: nat)
    requires i <= j < |ws|
  {
    forall k :: i <= k <= j ==> ws[k].ack == ws[i].ack
  }

  predicate Begins(ws: seq<Waiting>, i: nat)
    requires i < |ws|
  {
    i == 0 || ws[i - 1].ack != ws[i].ack
  }

  /** A stretch of n picks ending at w stays short of FILE. */
  predicate Short(ack: bool, n: nat, w: Waiting, left: nat) {
    n <= left && (if ack then n == left ==> w.control else w.control)
  }

  /**
   Every stretch with ACK waiting is over before FILE relief, its last possible pick being CONTROL,
   and every stretch without ACK always has CONTROL waiting and ends within its burst. The first
   stretch has what the starting counters leave of these.
   */
  predicate Starving(ws: seq<Waiting>, ackLeft: nat, controlLeft: nat, b: Bursts) {
    forall i: nat, j: nat :: i <= j < |ws| && Begins(ws, i) && SameThrough(ws, i, j) ==>
      Short(ws[i].ack, j - i + 1, ws[j],
            if ws[i].ack then (if i == 0 then ackLeft else b.ack + 1) else (if i == 0 then controlLeft else b.control))
  }

  /** What a first stretch of this kind has left, before its first pick. */
  function Left(w: Waiting, ackLeft: nat, controlLeft: nat): nat {
    if w.ack then ackLeft else controlLeft
  }

  /** After a pick of the stretch's kind it has one less, and the other kind starts afresh. */
  function AckLeftAfter(w: Waiting, ackLeft: nat, b: Bursts): nat
    requires w.ack ==> 0 < ackLeft
  {
    if w.ack then ackLeft - 1 else b.ack + 1
  }

  function ControlLeftAfter(w: Waiting, controlLeft: nat, b: Bursts): nat
    requires !w.ack ==> 0 < controlLeft
  {
    if w.ack then b.control else controlLeft - 1
  }

  lemma StarvingHead(ws: seq<Waiting>, ackLeft: nat, controlLeft: nat, b: Bursts)
    requires ws != [] && Starving(ws, ackLeft, controlLeft, b)
    ensures 0 < Left(ws[0], ackLeft, controlLeft) && Short(ws[0].ack, 1, ws[0], Left(ws[0], ackLeft, controlLeft))
  {
    assert Begins(ws, 0) && SameThrough(ws, 0, 0);
  }

  lemma StarvingTail(ws: seq<Waiting>, ackLeft: nat, controlLeft: nat, b: Bursts)
    requires ws != [] && Starving(ws, ackLeft, controlLeft, b) && 0 < Left(ws[0], ackLeft, controlLeft)
    ensures Starving(ws[1..], AckLeftAfter(ws[0], ackLeft, b), ControlLeftAfter(ws[0], controlLeft, b), b)
  {
    var rest := ws[1..];
    forall i: nat, j: nat | i <= j < |rest| && Begins(rest, i) && SameThrough(rest, i, j)
      ensures Short(rest[i].ack, j - i + 1, rest[j],
                    if rest[i].ack then (if i == 0 then AckLeftAfter(ws[0], ackLeft, b) else b.ack + 1)
                    else (if i == 0 then ControlLeftAfter(ws[0], controlLeft, b) else b.control))
    {
      ShiftedStretch(ws, i, j);
      if i == 0 && ws[0].ack == ws[1].ack {
        LongerStretch(ws, j);
      }
    }
  }

  /** A stretch of the tail is one of the whole. */
  lemma ShiftedStretch(ws: seq<Waiting>, i: nat, j: nat)
    requires ws != [] && i <= j < |ws[1..]| && Begins(ws[1..], i) && SameThrough(ws[1..], i, j)
    ensures SameThrough(ws, i + 1, j + 1) && (i > 0 || ws[0].ack != ws[1].ack ==> Begins(ws, i + 1))
    ensures ws[i + 1] == ws[1..][i] && ws[j + 1] == ws[1..][j]
  {
    forall k | i + 1 <= k <= j + 1 ensures ws[k].ack == ws[i + 1].ack {
      assert ws[1..][k - 1] == ws[k];
    }
  }

  lemma LongerStretch(ws: seq<Waiting>, j: nat)
    requires 1 < |ws| && j < |ws[1..]| && SameThrough(ws[1..], 0, j) && ws[0].ack == ws[1].ack
    ensures Begins(ws, 0) && SameThrough(ws, 0, j + 1)
  {
    forall k | 0 <= k <= j + 1 ensures ws[k].ack == ws[0].ack {
      if k > 0 { assert ws[1..][k - 1] == ws[k]; }
    }
  }

  lemma StarvingCons(ws: seq<Waiting>, ackLeft: nat, controlLeft: nat, b: Bursts)
    requires ws != [] && 0 < Left(ws[0], ackLeft, controlLeft)
    requires Short(ws[0].ack, 1, ws[0], Left(ws[0], ackLeft, controlLeft))
    requires Starving(ws[1..], AckLeftAfter(ws[0], ackLeft, b), ControlLeftAfter(ws[0], controlLeft, b), b)
    ensures Starving(ws, ackLeft, controlLeft, b)
  {
    forall i: nat, j: nat | i <= j < |ws| && Begins(ws, i) && SameThrough(ws, i, j)
      ensures Short(ws[i].ack, j - i + 1, ws[j],
                    if ws[i].ack then (if i == 0 then ackLeft else b.ack + 1) else (if i == 0 then controlLeft else b.control))
    {
      if 0 < j {
        TailStretch(ws, i, j);
      }
    }
  }

  /** A stretch that does not end at once is one of the tail, without its first pick if it begins there. */
  lemma TailStretch(ws: seq<Waiting>, i: nat, j: nat)
    requires i <= j < |ws| && 0 < j && Begins(ws, i) && SameThrough(ws, i, j)
    ensures var k := if i == 0 then 0 else i - 1;
      && Begins(ws[1..], k) && SameThrough(ws[1..], k, j - 1)
      && ws[1..][j - 1] == ws[j] && ws[1..][k].ack == ws[i].ack
  {
    var k := if i == 0 then 0 else i - 1;
    forall m | k <= m <= j - 1 ensures ws[1..][m].ack == ws[1..][k].ack {
      assert ws[1..][m] == ws[m + 1] && ws[1..][k] == ws[k + 1];
    }
    if k > 0 {
      assert ws[1..][k] == ws[i] && ws[1..][k - 1] == ws[i - 1];
    }
  }

  /** With FILE waiting, a pick passes it over exactly when the stretch it belongs to has picks left. */
  lemma PassedOverIff(t: Turn, w: Waiting, b: Bursts)
    requires TurnInv(t, b) && 0 < b.ack && 0 < b.control && w.file
    ensures var (pick, next) := Select(t, w, b);
      var left := Left(w, AckLeft(t, b), ControlLeft(t, b));
      && (pick != Some(FILE) <==> 0 < left && Short(w.ack, 1, w, left))
      && (pick != Some(FILE) ==>
            && AckLeft(next, b) == AckLeftAfter(w, AckLeft(t, b), b)
            && ControlLeft(next, b) == ControlLeftAfter(w, ControlLeft(t, b), b))
  {
  }

  lemma PickedSplits(t: Turn, ws: seq<Waiting>, b: Bursts, k: Kind)
    requires ws != []
    ensures NeverPicked(Picks(t, ws, b), k)
       <==> Select(t, ws[0], b).0 != Some(k) && NeverPicked(Picks(Select(t, ws[0], b).1, ws[1..], b), k)
  {
    var rest := Picks(Select(t, ws[0], b).1, ws[1..], b);
    assert Picks(t, ws, b) == [Select(t, ws[0], b).0] + rest;
    if NeverPicked(Picks(t, ws, b), k) {
      FirstPick(t, ws, b, k);
    }
    hide Select;
  }

  /** A FILE frame that waits all the time is never picked exactly when the waiting pattern starves it. */
  lemma {:induction false} FileNeverPickedIff(t: Turn, ws: seq<Waiting>, b: Bursts)
    requires TurnInv(t, b) && 0 < b.ack && 0 < b.control && forall w :: w in ws ==> w.file
    ensures NeverPicked(Picks(t, ws, b), FILE) <==> Starving(ws, AckLeft(t, b), ControlLeft(t, b), b)
    decreases |ws|
  {
    if ws != [] {
      var next := Select(t, ws[0], b).1;
      assert ws[0] in ws && forall w :: w in ws[1..] ==> w in ws;
      SelectKeepsInv(t, ws[0], b);
      PassedOverIff(t, ws[0], b);
      PickedSplits(t, ws, b, FILE);
      FileNeverPickedIff(next, ws[1..], b);
      hide Select, Picks, NeverPicked, TurnInv, AckLeft, ControlLeft, Short, Starving;
      if Starving(ws, AckLeft(t, b), ControlLeft(t, b), b) {
        StarvingHead(ws, AckLeft(t, b), ControlLeft(t, b), b);
        StarvingTail(ws, AckLeft(t, b), ControlLeft(t, b), b);
      } else if 0 < Left(ws[0], AckLeft(t, b), ControlLeft(t, b))
                && Short(ws[0].ack, 1, ws[0], Left(ws[0], AckLeft(t, b), ControlLeft(t, b)))
                && Starving(ws[1..], AckLeftAfter(ws[0], AckLeft(t, b), b), ControlLeftAfter(ws[0], ControlLeft(t, b), b), b) {
        StarvingCons(ws, AckLeft(t, b), ControlLeft(t, b), b);
      }
    }
  }

  /** While acknowledgements keep coming without a break FILE is passed over at most ack burst + 1 times. */
  lemma FileWaitsWhileAcksFlow(t: Turn, ws: seq<Waiting>, b: Bursts)
    requires TurnInv(t, b) && 0 < b.ack && 0 < b.control
    requires (forall w :: w in ws ==> w.file && w.ack) && NeverPicked(Picks(t, ws, b), FILE)
    ensures |ws| <= AckLeft(t, b) <= b.ack + 1
  {
    FileNeverPickedIff(t, ws, b);
    if ws != [] {
      assert Begins(ws, 0) && SameThrough(ws, 0, |ws| - 1);
    }
  }

  /** While there are no acknowledgements at all FILE is passed over at most control burst times. */
  lemma FileWaitsWithoutAcks(t: Turn, ws: seq<Waiting>, b: Bursts)
    requires TurnInv(t, b) && 0 < b.ack && 0 < b.control
    requires (forall w :: w in ws ==> w.file && !w.ack) && NeverPicked(Picks(t, ws, b), FILE)
    ensures |ws| <= ControlLeft(t, b) <= b.control
  {
    FileNeverPickedIff(t, ws, b);
    if ws != [] {
      assert Begins(ws, 0) && SameThrough(ws, 0, |ws| - 1);
    }
  }

  /** An acknowledgement at every other pick, with CONTROL and FILE waiting all the time. */
  function Intermittent(n: nat): (ws: seq<Waiting>)
    ensures |ws| == n && forall i :: 0 <= i < n ==> ws[i] == Waiting(i % 2 == 0, true, true)
  {
    seq(n, i => Waiting(i % 2 == 0, true, true))
  }

  /** So there is no bound when acknowledgements come and go: this run never serves FILE, however long it is. */
  lemma FileStarvesUnderIntermittentAcks(n: nat, b: Bursts)
    requires 0 < b.ack && 0 < b.control
    ensures NeverPicked(Picks(FIRST, Intermittent(n), b), FILE)
  {
    var ws := Intermittent(n);
    forall i: nat, j: nat | i <= j < |ws| && Begins(ws, i) && SameThrough(ws, i, j) ensures j == i {
      assert i < j ==> ws[i + 1].ack != ws[i].ack;
    }
    FileNeverPickedIff(FIRST, ws, b);
  }

  // ---------------------------------------------------------------- keyed frames

  datatype Item = Item(id: nat, key: Option<nat>)

  datatype Queues = Queues(ack: seq<Item>, control: seq<Item>, file: seq<Item>)

  function Of(q: Queues, k: Kind): seq<Item> {
    match k case ACK => q.ack case CONTROL => q.control case FILE => q.file
  }

  function Put(q: Queues, k: Kind, items: seq<Item>): Queues {
    match k case ACK => q.(ack := items) case CONTROL => q.(control := items) case FILE => q.(file := items)
  }

  function WaitingIn(q: Queues): Waiting {
    Waiting(q.ack != [], q.control != [], q.file != [])
  }

  /** Wire order of globally counted frames. */
  predicate Before(a: Item, b: Item) {
    && a.key.Some? && b.key.Some?
    && (a.key.value < b.key.value || (a.key.value == b.key.value && a.id <= b.id))
  }

  predicate HeadsKeyed(q: Queues) {
    forall k :: Of(q, k) != [] ==> Of(q, k)[0].key.Some?
  }

  function Better(q: Queues, a: Option<Kind>, k: Kind): Option<Kind>
    requires HeadsKeyed(q) && (a.Some? ==> Of(q, a.value) != [])
  {
    if Of(q, k) == [] then a
    else if a.None? || !Before(Of(q, a.value)[0], Of(q, k)[0]) then Some(k) else a
  }

  /** The queue whose head comes first on the wire; none unless every head carries a key. */
  function OrderedKind(q: Queues): Option<Kind> {
    if !HeadsKeyed(q) then None else Better(q, Better(q, Better(q, None, ACK), CONTROL), FILE)
  }

  /** Every frame carries a key and the frames are in wire order. */
  predicate SortedByKey(items: seq<Item>) {
    forall i, j :: 0 <= i <= j < |items| ==> Before(items[i], items[j])
  }

  predicate AllSorted(q: Queues) {
    SortedByKey(q.ack) && SortedByKey(q.control) && SortedByKey(q.file)
  }

  /** With keyed queues in wire order the next frame is the first of all waiting frames. */
  lemma OrderedPickIsFirst(q: Queues, k: Kind, i: nat)
    requires AllSorted(q)
    requires i < |Of(q, k)|
    ensures OrderedKind(q).Some? && Of(q, OrderedKind(q).value) != []
    ensures Before(Of(q, OrderedKind(q).value)[0], Of(q, k)[i])
  {
    assert SortedByKey(Of(q, k));
    assert Before(Of(q, k)[0], Of(q, k)[i]);
    HeadsAreKeyed(q);
  }

  lemma HeadsAreKeyed(q: Queues)
    requires AllSorted(q)
    ensures HeadsKeyed(q)
  {
    forall k | Of(q, k) != [] ensures Of(q, k)[0].key.Some? {
      assert SortedByKey(Of(q, k));
      assert Before(Of(q, k)[0], Of(q, k)[0]);
    }
  }

  /** The frames in the order repeated polls hand them out, nothing being enqueued meanwhile. */
  function Drained(q: Queues): seq<Item>
    requires AllSorted(q)
    decreases |q.ack| + |q.control| + |q.file|
  {
    if q.ack == [] && q.control == [] && q.file == [] then []
    else
      OrderedPickExists(q);
      var k := OrderedKind(q).value;
      TailStaysSorted(q, k);
      [Of(q, k)[0]] + Drained(Put(q, k, Of(q, k)[1..]))
  }

  lemma OrderedPickExists(q: Queues)
    requires AllSorted(q)
    requires q.ack != [] || q.control != [] || q.file != []
    ensures OrderedKind(q).Some? && Of(q, OrderedKind(q).value) != []
  {
    if q.ack != [] {
      OrderedPickIsFirst(q, ACK, 0);
    } else if q.control != [] {
      OrderedPickIsFirst(q, CONTROL, 0);
    } else {
      OrderedPickIsFirst(q, FILE, 0);
    }
  }

  lemma TailStaysSorted(q: Queues, k: Kind)
    requires AllSorted(q)
    requires Of(q, k) != []
    ensures var d := Put(q, k, Of(q, k)[1..]);
      && AllSorted(d)
      && |d.ack| + |d.control| + |d.file| < |q.ack| + |q.control| + |q.file|
  {
  }

  function Contents(q: Queues): multiset<Item> {
    multiset(q.ack) + multiset(q.control) + multiset(q.file)
  }

  /** Polling keyed queues is an ascending merge: every waiting frame, each once, in wire order. */
  lemma {:induction false} DrainIsAscendingMerge(q: Queues)
    requires AllSorted(q)
    ensures multiset(Drained(q)) == Contents(q)
    ensures SortedByKey(Drained(q))
    decreases |q.ack| + |q.control| + |q.file|
  {
    if q.ack != [] || q.control != [] || q.file != [] {
      OrderedPickExists(q);
      var k := OrderedKind(q).value;
      var head, rest := Of(q, k)[0], Put(q, k, Of(q, k)[1..]);
      TailStaysSorted(q, k);
      DrainIsAscendingMerge(rest);
      assert Drained(q) == [head] + Drained(rest);
      HeadAndRest(q, k);
      forall x | x in Drained(rest) ensures Before(head, x) {
        FirstOfAll(q, rest, x);
      }
      assert Before(head, head) by { OrderedPickIsFirst(q, k, 0); }
      PrependSorted(head, Drained(rest));
    }
  }

  lemma HeadAndRest(q: Queues, k: Kind)
    requires Of(q, k) != []
    ensures Contents(q) == multiset{Of(q, k)[0]} + Contents(Put(q, k, Of(q, k)[1..]))
  {
    assert Of(q, k) == [Of(q, k)[0]] + Of(q, k)[1..];
  }

  lemma PrependSorted(head: Item, rest: seq<Item>)
    requires SortedByKey(rest) && Before(head, head) && forall x :: x in rest ==> Before(head, x)
    ensures SortedByKey([head] + rest)
  {
  }

  lemma FirstOfAll(q: Queues, rest: Queues, x: Item)
    requires AllSorted(q)
    requires OrderedKind(q).Some? && Of(q, OrderedKind(q).value) != []
    requires rest == Put(q, OrderedKind(q).value, Of(q, OrderedKind(q).value)[1..])
    requires AllSorted(rest)
    requires x in Drained(rest) && multiset(Drained(rest)) == Contents(rest)
    ensures Before(Of(q, OrderedKind(q).value)[0], x)
  {
    assert x in multiset(Drained(rest));
    assert x in rest.ack || x in rest.control || x in rest.file;
    hide OrderedKind, Drained;
    if x in rest.ack {
      InQueue(q, rest, ACK, x);
    } else if x in rest.control {
      InQueue(q, rest, CONTROL, x);
    } else {
      InQueue(q, rest, FILE, x);
    }
  }

  lemma InQueue(q: Queues, rest: Queues, k: Kind, x: Item)
    requires AllSorted(q)
    requires OrderedKind(q).Some? && Of(q, OrderedKind(q).value) != []
    requires rest == Put(q, OrderedKind(q).value, Of(q, OrderedKind(q).value)[1..])
    requires x in Of(rest, k)
    ensures Before(Of(q, OrderedKind(q).value)[0], x)
  {
    hide OrderedKind;
    assert x in Of(q, k);
    var i :| 0 <= i < |Of(q, k)| && Of(q, k)[i] == x;
    OrderedPickIsFirst(q, k, i);
  }

  // ---------------------------------------------------------------- ownership in place

  datatype SchedulerState = READY | IN_FLIGHT | NOT_READY

  datatype Flight = Flight(item: Item, kind: Kind, status: Option<string>, returned: bool)

  /** Where an accepted frame is; it only moves forward. */
  datatype Place = Queued(kind: Kind) | InFlight | Completed

  datatype Capacities = Capacities(ack: nat, control: nat, file: nat)

  function Room(c: Capacities, k: Kind): nat {
    match k case ACK => c.ack case CONTROL => c.control case FILE => c.file
  }

  predicate Listed(items: seq<Item>, id: nat) {
    exists i :: 0 <= i < |items| && items[i].id == id
  }

  /** Frames of a queue in acceptance order, exactly those placed there. */
  ghost predicate QueueHolds(items: seq<Item>, k: Kind, place: map<nat, Place>) {
    && (forall i :: 0 <= i < |items| ==> items[i].id in place && place[items[i].id] == Queued(k))
    && (forall id :: id in place && place[id] == Queued(k) ==> Listed(items, id))
    && (forall i, j :: 0 <= i < j < |items| ==> items[i].id < items[j].id)
  }

  ghost predicate FlightHolds(current: Option<Flight>, place: map<nat, Place>) {
    && (current.Some? ==> current.value.item.id in place && place[current.value.item.id] == InFlight)
    && (forall id :: id in place && place[id] == InFlight ==> current.Some? && current.value.item.id == id)
  }

  /** A frame that neither leaves nor enters a queue does not matter to it. */
  lemma OtherQueueHolds(items: seq<Item>, q: Kind, place: map<nat, Place>, id: nat, to: Place)
    requires QueueHolds(items, q, place) && to != Queued(q) && (id in place ==> place[id] != Queued(q))
    ensures QueueHolds(items, q, place[id := to])
  {
    hide Listed;
  }

  lemma PushHolds(items: seq<Item>, k: Kind, place: map<nat, Place>, item: Item)
    requires QueueHolds(items, k, place) && item.id !in place && forall id :: id in place ==> id < item.id
    ensures QueueHolds(items + [item], k, place[item.id := Queued(k)])
  {
    var pushed, moved := items + [item], place[item.id := Queued(k)];
    forall id | id in moved && moved[id] == Queued(k) ensures Listed(pushed, id) {
      if id != item.id {
        var i :| 0 <= i < |items| && items[i].id == id;
        assert pushed[i].id == id;
      } else {
        assert pushed[|items|].id == id;
      }
    }
  }

  lemma PopHolds(items: seq<Item>, k: Kind, place: map<nat, Place>)
    requires QueueHolds(items, k, place) && items != []
    ensures QueueHolds(items[1..], k, place[items[0].id := InFlight])
  {
    var rest, moved := items[1..], place[items[0].id := InFlight];
    forall i | 0 <= i < |rest| ensures rest[i].id in moved && moved[rest[i].id] == Queued(k) {
      assert rest[i] == items[i + 1] && items[0].id < items[i + 1].id;
    }
    forall id | id in moved && moved[id] == Queued(k) ensures Listed(rest, id) {
      var i :| 0 <= i < |items| && items[i].id == id;
      assert rest[i - 1].id == id;
    }
  }

  ghost predicate QueuesHold(q: Queues, place: map<nat, Place>) {
    QueueHolds(q.ack, ACK, place) && QueueHolds(q.control, CONTROL, place) && QueueHolds(q.file, FILE, place)
  }

  lemma PushKeepsQueues(q: Queues, k: Kind, place: map<nat, Place>, item: Item)
    requires QueuesHold(q, place) && item.id !in place && forall id :: id in place ==> id < item.id
    ensures QueuesHold(Put(q, k, Of(q, k) + [item]), place[item.id := Queued(k)])
  {
    hide QueueHolds;
    PushHolds(Of(q, k), k, place, item);
    if k != ACK { OtherQueueHolds(q.ack, ACK, place, item.id, Queued(k)); }
    if k != CONTROL { OtherQueueHolds(q.control, CONTROL, place, item.id, Queued(k)); }
    if k != FILE { OtherQueueHolds(q.file, FILE, place, item.id, Queued(k)); }
  }

  lemma PopKeepsQueues(q: Queues, k: Kind, place: map<nat, Place>)
    requires QueuesHold(q, place) && Of(q, k) != []
    ensures Of(q, k)[0].id in place && place[Of(q, k)[0].id] == Queued(k)
    ensures QueuesHold(Put(q, k, Of(q, k)[1..]), place[Of(q, k)[0].id := InFlight])
  {
    var id := Of(q, k)[0].id;
    assert id in place && place[id] == Queued(k);
    hide QueueHolds;
    PopHolds(Of(q, k), k, place);
    if k != ACK { OtherQueueHolds(q.ack, ACK, place, id, InFlight); }
    if k != CONTROL { OtherQueueHolds(q.control, CONTROL, place, id, InFlight); }
    if k != FILE { OtherQueueHolds(q.file, FILE, place, id, InFlight); }
  }

  lemma FinishKeepsQueues(q: Queues, place: map<nat, Place>, id: nat)
    requires QueuesHold(q, place) && id in place && place[id] == InFlight
    ensures QueuesHold(q, place[id := Completed])
  {
    hide QueueHolds;
    OtherQueueHolds(q.ack, ACK, place, id, Completed);
    OtherQueueHolds(q.control, CONTROL, place, id, Completed);
    OtherQueueHolds(q.file, FILE, place, id, Completed);
  }

  /** Every accepted frame is in its queue, in flight, or completed. */
  ghost predicate Owned(q: Queues, current: Option<Flight>, place: map<nat, Place>) {
    QueuesHold(q, place) && FlightHolds(current, place)
  }

  predicate WithinRoom(q: Queues, c: Capacities) {
    |q.ack| <= c.ack && |q.control| <= c.control && |q.file| <= c.file
  }

  lemma LaunchKeepsOwned(q: Queues, k: Kind, place: map<nat, Place>, c: Capacities)
    requires Owned(q, None, place) && Of(q, k) != [] && WithinRoom(q, c)
    ensures var head := Of(q, k)[0];
      && head.id in place && place[head.id] == Queued(k)
      && Owned(Put(q, k, Of(q, k)[1..]), Some(Flight(head, k, None, false)), place[head.id := InFlight])
      && WithinRoom(Put(q, k, Of(q, k)[1..]), c)
  {
    PopKeepsQueues(q, k, place);
    hide QueuesHold;
  }

  lemma EnqueueKeepsOwned(q: Queues, k: Kind, current: Option<Flight>, place: map<nat, Place>, item: Item, c: Capacities)
    requires Owned(q, current, place) && item.id !in place && (forall id :: id in place ==> id < item.id)
    requires WithinRoom(q, c) && |Of(q, k)| < Room(c, k)
    ensures Owned(Put(q, k, Of(q, k) + [item]), current, place[item.id := Queued(k)])
    ensures WithinRoom(Put(q, k, Of(q, k) + [item]), c)
  {
    PushKeepsQueues(q, k, place, item);
    hide QueuesHold;
  }

  lemma FinishKeepsOwned(q: Queues, current: Option<Flight>, place: map<nat, Place>)
    requires Owned(q, current, place) && current.Some?
    ensures current.value.item.id in place && place[current.value.item.id] == InFlight
    ensures Owned(q, None, place[current.value.item.id := Completed])
  {
    FinishKeepsQueues(q, place, current.value.item.id);
    hide QueuesHold;
  }

  /** Status and return marks do not move the frame. */
  lemma MarkKeepsOwned(q: Queues, a: Flight, b: Flight, place: map<nat, Place>)
    requires Owned(q, Some(a), place) && a.item.id == b.item.id
    ensures Owned(q, Some(b), place)
  {
    hide QueuesHold;
  }

  class MissionComScheduler {
    const bursts: Bursts
    const capacities: Capacities
    var queues: Queues
    var turn: Turn
    var state: SchedulerState
    var current: Option<Flight>
    var nextItemId: nat
    var notReadyAfterCompletion: bool
    ghost var place: map<nat, Place>

    ghost predicate Valid()
      reads this
    {
      && 0 < bursts.ack && 0 < bursts.control
      && TurnInv(turn, bursts)
      && 1 <= nextItemId && (forall id :: id in place <==> 1 <= id < nextItemId)
      && Owned(queues, current, place)
      && WithinRoom(queues, capacities)
      && (state == IN_FLIGHT <==> current.Some?)
    }

    constructor (bursts: Bursts, capacities: Capacities)
      requires 0 < bursts.ack && 0 < bursts.control
      ensures Valid() && place == map[] && this.bursts == bursts && this.capacities == capacities
    {
      this.bursts, this.capacities := bursts, capacities;
      queues, turn, state, current, nextItemId := Queues([], [], []), FIRST, READY, None, 1;
      notReadyAfterCompletion, place := false, map[];
    }

    /** Accepts a frame under a new id, or refuses it because its queue is full. */
    method Enqueue(kind: Kind, key: Option<nat>) returns (id: Option<nat>)
      requires Valid()
      modifies `queues, `nextItemId, `place
      ensures Valid()
      ensures id.None? <==> |Of(old(queues), kind)| >= Room(capacities, kind)
      ensures id.None? ==> queues == old(queues) && place == old(place)
      ensures id.Some? ==>
        && id.value !in old(place) && place == old(place)[id.value := Queued(kind)]
        && queues == Put(old(queues), kind, Of(old(queues), kind) + [Item(id.value, key)])
    {
      if |Of(queues, kind)| >= Room(capacities, kind) {
        return None;
      }
      var item := Item(nextItemId, key);
      EnqueueKeepsOwned(queues, kind, current, place, item, capacities);
      hide Owned, WithinRoom, TurnInv;
      queues := Put(queues, kind, Of(queues, kind) + [item]);
      place := place[item.id := Queued(kind)];
      nextItemId := nextItemId + 1;
      id := Some(item.id);
    }

    /** Which queue goes next: wire order when every head is keyed, turns otherwise. */
    function NextKind(): (Option<Kind>, Turn)
      reads this
    {
      if OrderedKind(queues).Some? then (OrderedKind(queues), turn) else Select(turn, WaitingIn(queues), bursts)
    }

    lemma NextKindHasItem()
      requires Valid()
      ensures NextKind().0.Some? ==> Of(queues, NextKind().0.value) != []
      ensures TurnInv(NextKind().1, bursts)
      ensures state == READY ==> current.None?
      ensures current.None? ==> state != IN_FLIGHT
    {
      SelectKeepsInv(turn, WaitingIn(queues), bursts);
    }

    /** Hands out one frame when none is in flight. */
    method Poll() returns (item: Option<Item>)
      requires Valid()
      modifies `queues, `turn, `current, `state, `place
      ensures Valid()
      ensures item.Some? <==> old(state) == READY && old(NextKind()).0.Some?
      ensures item.None? ==> queues == old(queues) && turn == old(turn) && current == old(current) && place == old(place)
      ensures item.Some? ==>
        var k := old(NextKind()).0.value;
        && Of(old(queues), k) != [] && item.value == Of(old(queues), k)[0]
        && queues == Put(old(queues), k, Of(old(queues), k)[1..]) && turn == old(NextKind()).1
        && current == Some(Flight(item.value, k, None, false))
        && item.value.id in old(place) && place == old(place)[item.value.id := InFlight]
    {
      NextKindHasItem();
      hide Valid, OrderedKind, Select;
      if state != READY || current.Some? {
        return None;
      }
      var (kind, next) := NextKind();
      if kind.None? {
        return None;
      }
      var head := Launch(kind.value, next);
      item := Some(head);
    }

    /** Takes the head of a queue into flight. */
    method Launch(kind: Kind, next: Turn) returns (head: Item)
      requires Valid() && current.None? && Of(queues, kind) != [] && TurnInv(next, bursts)
      modifies `queues, `turn, `current, `state, `place
      ensures Valid()
      ensures head == Of(old(queues), kind)[0] && turn == next && current == Some(Flight(head, kind, None, false))
      ensures queues == Put(old(queues), kind, Of(old(queues), kind)[1..])
      ensures head.id in old(place) && place == old(place)[head.id := InFlight]
    {
      head := Of(queues, kind)[0];
      LaunchKeepsOwned(queues, kind, place, capacities);
      hide Owned, WithinRoom, TurnInv;
      queues, turn := Put(queues, kind, Of(queues, kind)[1..]), next;
      current, state := Some(Flight(head, kind, None, false)), IN_FLIGHT;
      place := place[head.id := InFlight];
    }

    /** The first status for the frame in flight counts; all others are duplicates. */
    method MarkStatus(id: nat, status: string) returns (done: bool)
      requires Valid()
      modifies `current, `state, `notReadyAfterCompletion, `place
      ensures Valid()
      ensures done <==> old(current).Some? && old(current).value.item.id == id && old(current).value.status.None? && old(current).value.returned
      ensures done ==> id in old(place) && old(place)[id] == InFlight && place == old(place)[id := Completed] && current.None?
      ensures done ==> state == (if old(notReadyAfterCompletion) then NOT_READY else READY)
      ensures !done ==> place == old(place) && notReadyAfterCompletion == old(notReadyAfterCompletion)
      ensures !done ==>
        var first := old(current).Some? && old(current).value.item.id == id && old(current).value.status.None?;
        current == if first then Some(old(current).value.(status := Some(status))) else old(current)
    {
      if current.None? || current.value.item.id != id || current.value.status.Some? {
        return false;
      }
      MarkKeepsOwned(queues, current.value, current.value.(status := Some(status)), place);
      hide Owned, WithinRoom, TurnInv;
      current := Some(current.value.(status := Some(status)));
      done := TryComplete();
    }

    method MarkUpstreamReturn(id: nat) returns (done: bool)
      requires Valid()
      modifies `current, `state, `notReadyAfterCompletion, `place
      ensures Valid()
      ensures done <==> old(current).Some? && old(current).value.item.id == id && !old(current).value.returned && old(current).value.status.Some?
      ensures done ==> id in old(place) && old(place)[id] == InFlight && place == old(place)[id := Completed] && current.None?
      ensures done ==> state == (if old(notReadyAfterCompletion) then NOT_READY else READY)
      ensures !done ==> place == old(place) && notReadyAfterCompletion == old(notReadyAfterCompletion)
      ensures !done ==>
        var held := old(current).Some? && old(current).value.item.id == id;
        current == if held then Some(old(current).value.(returned := true)) else old(current)
    {
      if current.None? || current.value.item.id != id || current.value.returned {
        return false;
      }
      MarkKeepsOwned(queues, current.value, current.value.(returned := true), place);
      hide Owned, WithinRoom, TurnInv;
      current := Some(current.value.(returned := true));
      done := TryComplete();
    }

    /** Both the status and the returned buffer release the frame, once. */
    method TryComplete() returns (done: bool)
      requires Valid() && current.Some?
      modifies `current, `state, `notReadyAfterCompletion, `place
      ensures Valid()
      ensures done <==> old(current).value.status.Some? && old(current).value.returned
      ensures done ==>
        var id := old(current).value.item.id;
        id in old(place) && old(place)[id] == InFlight && place == old(place)[id := Completed] && current.None?
      ensures done ==> state == (if old(notReadyAfterCompletion) then NOT_READY else READY)
      ensures !done ==> place == old(place) && current == old(current) && notReadyAfterCompletion == old(notReadyAfterCompletion)
    {
      if current.value.status.None? || !current.value.returned {
        return false;
      }
      var id := current.value.item.id;
      FinishKeepsOwned(queues, current, place);
      hide Owned, WithinRoom, TurnInv;
      place := place[id := Completed];
      current := None;
      state := if notReadyAfterCompletion then NOT_READY else READY;
      notReadyAfterCompletion := false;
      done := true;
    }

    method SetNotReady()
      requires Valid()
      modifies `state, `notReadyAfterCompletion
      ensures Valid() && (current.None? ==> state == NOT_READY) && (current.Some? ==> notReadyAfterCompletion)
    {
      if current.Some? {
        notReadyAfterCompletion := true;
      } else {
        state := NOT_READY;
      }
    }

    method SetReady()
      requires Valid()
      modifies `state
      ensures Valid() && (current.None? ==> state == READY) && (current.Some? ==> state == IN_FLIGHT)
    {
      if current.None? {
        state := READY;
      }
    }
  }
}
