/**
 Durable frame and packet counters on the satellite. A counter wraps lazily: it is left at the
 modulus and starts over, in the next epoch, only when the next value is taken.
 */
module TmAllocator {
  import opened Bytes

  const FRAME_MODULUS: nat := 256
  const PACKET_MODULUS: nat := 16384

  datatype Counter = Counter(next: nat, epoch: nat)

  datatype Drawn = Drawn(value: nat, epoch: nat)

  predicate CounterInv(c: Counter, modulus: nat) {
    c.next <= modulus && c.epoch <= U32_MAX
  }

  /** How many values have been taken. */
  function Taken(c: Counter, modulus: nat): nat {
    c.epoch * modulus + c.next
  }

  /** Position of a drawn value in the unending count. */
  function Unwrapped(d: Drawn, modulus: nat): nat {
    d.epoch * modulus + d.value
  }

  predicate Exhausted(c: Counter, modulus: nat) {
    c.next == modulus && c.epoch >= U32_MAX
  }

  function Draw(c: Counter, modulus: nat): (Drawn, Counter)
    requires !Exhausted(c, modulus)
  {
    if c.next == modulus then (Drawn(0, c.epoch + 1), Counter(1, c.epoch + 1))
    else (Drawn(c.next, c.epoch), Counter(c.next + 1, c.epoch))
  }

  /** The n-th value drawn, counting from one, stands for n - 1, and values stay below the modulus. */
  lemma DrawCounts(c: Counter, modulus: nat)
    requires CounterInv(c, modulus) && !Exhausted(c, modulus) && 1 <= modulus
    ensures var (d, after) := Draw(c, modulus);
      && CounterInv(after, modulus)
      && d.value < modulus
      && Unwrapped(d, modulus) == Taken(c, modulus)
      && Taken(after, modulus) == Taken(c, modulus) + 1
  {
    if c.next == modulus {
      assert (c.epoch + 1) * modulus == c.epoch * modulus + modulus;
    }
  }

  datatype FrameCounters = FrameCounters(
    apid: nat, vcid: nat, packet: Drawn, master: Drawn, virtual: Drawn)

  datatype AllocError = BadApid | BadChannel | CountersExhausted

  /** Three counters that advance together. */
  datatype Counters = Counters(master: Counter, virtuals: map<nat, Counter>, packets: map<nat, Counter>)

  function At(m: map<nat, Counter>, k: nat): Counter {
    if k in m then m[k] else Counter(0, 0)
  }

  ghost predicate CountersInv(s: Counters) {
    && CounterInv(s.master, FRAME_MODULUS)
    && (forall k :: k in s.virtuals ==> CounterInv(s.virtuals[k], FRAME_MODULUS))
    && (forall k :: k in s.packets ==> CounterInv(s.packets[k], PACKET_MODULUS))
  }

  class TmCounterTables {
    var master: Counter
    var virtuals: map<nat, Counter>
    var packets: map<nat, Counter>

    function Value(): Counters
      reads this
    {
      Counters(master, virtuals, packets)
    }

    ghost predicate Valid()
      reads this
    {
      CountersInv(Value())
    }

    constructor ()
      ensures Valid() && Value() == Counters(Counter(0, 0), map[], map[])
    {
      master, virtuals, packets := Counter(0, 0), map[], map[];
    }

    /** Packet, master and virtual counts are taken in one transaction or not at all. */
    method AllocateFrame(apid: int, vcid: int) returns (r: Result<FrameCounters, AllocError>)
      requires Valid()
      modifies this
      ensures Valid()
      ensures r.Err? ==> Value() == old(Value())
      ensures r.Err? <==> !(0 <= apid <= 0x7FF) || !(0 <= vcid <= 7)
                          || Exhausted(old(master), FRAME_MODULUS) || Exhausted(At(old(virtuals), vcid), FRAME_MODULUS)
                          || Exhausted(At(old(packets), apid), PACKET_MODULUS)
      ensures r.Ok? ==>
        && r.value.apid == apid && r.value.vcid == vcid
        && Unwrapped(r.value.master, FRAME_MODULUS) == Taken(old(master), FRAME_MODULUS)
        && Unwrapped(r.value.virtual, FRAME_MODULUS) == Taken(At(old(virtuals), vcid), FRAME_MODULUS)
        && Unwrapped(r.value.packet, PACKET_MODULUS) == Taken(At(old(packets), apid), PACKET_MODULUS)
        && r.value.master.value < FRAME_MODULUS && r.value.virtual.value < FRAME_MODULUS && r.value.packet.value < PACKET_MODULUS
      ensures r.Ok? ==>
        && Taken(master, FRAME_MODULUS) == Taken(old(master), FRAME_MODULUS) + 1
        && (forall k: nat :: Taken(At(virtuals, k), FRAME_MODULUS)
              == Taken(At(old(virtuals), k), FRAME_MODULUS) + (if k == vcid then 1 else 0))
        && (forall k: nat :: Taken(At(packets, k), PACKET_MODULUS)
              == Taken(At(old(packets), k), PACKET_MODULUS) + (if k == apid then 1 else 0))
    {
      if apid < 0 || apid > 0x7FF {
        return Err(BadApid);
      }
      if vcid < 0 || vcid > 7 {
        return Err(BadChannel);
      }
      var virtual := At(virtuals, vcid);
      var packet := At(packets, apid);
      if Exhausted(master, FRAME_MODULUS) || Exhausted(virtual, FRAME_MODULUS) || Exhausted(packet, PACKET_MODULUS) {
        return Err(CountersExhausted);
      }
      hide Taken, Unwrapped, Exhausted, CounterInv;
      var m := ConsumeMaster();
      var nextVirtuals, v := Consume(virtuals, vcid, FRAME_MODULUS);
      var nextPackets, p := Consume(packets, apid, PACKET_MODULUS);
      virtuals, packets := nextVirtuals, nextPackets;
      r := Ok(FrameCounters(apid, vcid, p, m, v));
    }

    method ConsumeMaster() returns (d: Drawn)
      requires CounterInv(master, FRAME_MODULUS) && !Exhausted(master, FRAME_MODULUS)
      modifies `master
      ensures CounterInv(master, FRAME_MODULUS) && d.value < FRAME_MODULUS
      ensures Unwrapped(d, FRAME_MODULUS) == Taken(old(master), FRAME_MODULUS)
      ensures Taken(master, FRAME_MODULUS) == Taken(old(master), FRAME_MODULUS) + 1
    {
      DrawCounts(master, FRAME_MODULUS);
      hide Draw, Taken, Unwrapped;
      var (value, next) := Draw(master, FRAME_MODULUS);
      master := next;
      d := value;
    }
  }

  /** Takes one value of the counter kept under a key. */
  method Consume(table: map<nat, Counter>, key: nat, modulus: nat) returns (next: map<nat, Counter>, d: Drawn)
    requires 1 <= modulus && !Exhausted(At(table, key), modulus)
    requires forall k :: k in table ==> CounterInv(table[k], modulus)
    ensures forall k :: k in next ==> CounterInv(next[k], modulus)
    ensures d.value < modulus && Unwrapped(d, modulus) == Taken(At(table, key), modulus)
    ensures forall k: nat :: Taken(At(next, k), modulus) == Taken(At(table, k), modulus) + (if k == key then 1 else 0)
  {
    DrawCounts(At(table, key), modulus);
    hide Draw, Taken, Unwrapped, Exhausted, CounterInv;
    var (value, after) := Draw(At(table, key), modulus);
    next, d := table[key := after], value;
  }

  /** n values in a row. */
  ghost function DrawMany(c: Counter, modulus: nat, n: nat): (seq<Drawn>, Counter)
    requires CounterInv(c, modulus) && 1 <= modulus
    decreases n
  {
    if n == 0 || Exhausted(c, modulus) then ([], c)
    else
      DrawCounts(c, modulus);
      var (d, next) := Draw(c, modulus);
      var (rest, last) := DrawMany(next, modulus, n - 1);
      ([d] + rest, last)
  }

  /** The i-th drawn value stands for the i-th number: no value of the unending count is skipped or repeated. */
  lemma {:induction false} DrawnInSequence(c: Counter, modulus: nat, n: nat, i: nat)
    requires CounterInv(c, modulus) && 1 <= modulus && i < |DrawMany(c, modulus, n).0|
    ensures Unwrapped(DrawMany(c, modulus, n).0[i], modulus) == Taken(c, modulus) + i
    ensures DrawMany(c, modulus, n).0[i].value < modulus
    decreases n
  {
    DrawCounts(c, modulus);
    var (d, next) := Draw(c, modulus);
    if i > 0 {
      DrawnInSequence(next, modulus, n - 1, i - 1);
    }
  }
}
