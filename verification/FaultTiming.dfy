/**
 Timing of one simulated link direction: bounded draws, due time, and a bandwidth serializer
 whose transmission time is rounded up to whole nanoseconds.
 */
module FaultTiming {
  import opened Bytes

  const U64_MODULUS: nat := 0x1_0000_0000_0000_0000
  const U64_MAX: nat := U64_MODULUS - 1
  const PPM: nat := 1_000_000
  const GIGA: nat := 1_000_000_000

  datatype Profile = Profile(
    baseLatency: nat, jitterAbs: nat, lossPpm: nat, duplicatePpm: nat, corruptPpm: nat, corruptBits: nat,
    windowSlots: nat, slot: nat, bitrate: nat)

  predicate Valid(p: Profile) {
    p.lossPpm <= PPM && p.duplicatePpm <= PPM && p.corruptPpm <= PPM && p.jitterAbs <= p.baseLatency && 0 < p.bitrate
  }

  /** Draw stages, each with its own pseudo-random value. */
  datatype Stage = LOSS | DUPLICATE | CORRUPT_DECISION | JITTER | REORDER

  /** The pseudo-random function for one frame copy: a 64-bit value per stage. */
  type Draws = Stage -> nat

  ghost predicate Bits64(d: Draws) {
    forall s :: d(s) <= U64_MAX
  }

  function DrawBool(ppm: nat, draw: nat): bool {
    if ppm == 0 then false
    else if ppm == PPM then true
    else draw < ppm * U64_MODULUS / PPM
  }

  function DrawBounded(bound: nat, draw: nat): nat
    requires 0 < bound
  {
    draw * bound / U64_MODULUS
  }

  lemma DrawIsInRange(bound: nat, draw: nat)
    requires 0 < bound && draw <= U64_MAX
    ensures DrawBounded(bound, draw) < bound
  {
    MulMonotone(bound, draw, U64_MAX);
    hide DrawBounded;
    Below(draw, bound);
    DivBelow(draw * bound, bound, U64_MODULUS);
    DrawIs(draw, bound);
  }

  lemma DrawIs(draw: nat, bound: nat)
    requires 0 < bound
    ensures DrawBounded(bound, draw) == draw * bound / U64_MODULUS
  {
  }

  lemma Below(draw: nat, bound: nat)
    requires 0 < bound && bound * draw <= U64_MAX * bound
    ensures draw * bound < bound * U64_MODULUS
  {
  }

  lemma DivBelow(x: nat, q: nat, d: nat)
    requires 0 < d && x < q * d
    ensures x / d < q
  {
    assert (x / d) * d <= x;
    Cancel(x / d, q, d);
  }

  lemma Cancel(a: int, b: int, d: nat)
    requires a * d < b * d
    ensures a < b
  {
    assert (b - a) * d > 0;
  }

  lemma MulMonotone(x: nat, a: nat, b: nat)
    requires a <= b
    ensures x * a <= b * x
  {
    assert x * (b - a) >= 0;
    assert x * b == x * a + x * (b - a);
  }

  /** Rate zero never happens, the full rate always does, and a higher rate never happens less. */
  lemma DrawBoolIsMonotone(p1: nat, p2: nat, draw: nat)
    requires p1 <= p2 <= PPM && draw <= U64_MAX
    ensures !DrawBool(0, draw) && DrawBool(PPM, draw)
    ensures DrawBool(p1, draw) ==> DrawBool(p2, draw)
  {
    if p1 != 0 && p2 != PPM {
      DivMonotone(p1 * U64_MODULUS, p2 * U64_MODULUS);
    }
  }

  lemma DivMonotone(x: nat, y: nat)
    requires x <= y
    ensures x / PPM <= y / PPM
  {
  }

  /** Between the extremes, of the 2^64 draws exactly the lowest ones count, as many as the rate in millionths says, rounded down. */
  lemma DrawBoolIsExact(ppm: nat, draw: nat)
    requires 0 < ppm < PPM
    ensures DrawBool(ppm, draw) <==> (draw + 1) * PPM <= ppm * U64_MODULUS
  {
    var q, r := ppm * U64_MODULUS / PPM, ppm * U64_MODULUS % PPM;
    assert ppm * U64_MODULUS == q * PPM + r;
  }

  /** A bounded draw splits the 2^64 values evenly: it is v exactly for those between v and v + 1 parts of the bound. */
  lemma DrawBoundedIsExact(bound: nat, draw: nat, v: nat)
    requires 0 < bound
    ensures DrawBounded(bound, draw) == v <==> v * U64_MODULUS <= draw * bound < (v + 1) * U64_MODULUS
  {
    DrawIs(draw, bound);
    hide DrawBounded;
    QuotientIs(draw * bound, U64_MODULUS, v);
  }

  lemma QuotientIs(x: nat, d: nat, v: nat)
    requires 0 < d
    ensures x / d == v <==> v * d <= x < (v + 1) * d
  {
    var q := x / d;
    QuotientBounds(x, d);
    if v * d <= x < (v + 1) * d {
      Cancel(v, q + 1, d);
      Cancel(q, v + 1, d);
    }
  }

  lemma QuotientBounds(x: nat, d: nat)
    requires 0 < d
    ensures (x / d) * d <= x < (x / d + 1) * d
  {
    var q, r := x / d, x % d;
    assert x == q * d + r;
    assert (q + 1) * d == q * d + d;
  }

  datatype Timing = Timing(due: nat, start: nat, duration: nat, release: nat)

  function Jitter(p: Profile, draw: nat): int {
    if p.jitterAbs == 0 then 0 else DrawBounded(2 * p.jitterAbs + 1, draw) - p.jitterAbs
  }

  function Slots(p: Profile, draw: nat): nat {
    if p.windowSlots == 0 then 0 else DrawBounded(p.windowSlots + 1, draw)
  }

  function Duration(bits: nat, bitrate: nat): nat
    requires 0 < bitrate
  {
    (bits * GIGA + bitrate - 1) / bitrate
  }

  /** Due time, then the first free moment of the serializer; none on 64-bit overflow. */
  function TimingOf(p: Profile, d: Draws, bits: nat, ingress: nat, available: nat): Option<Timing>
    requires 0 < p.bitrate
  {
    var due := ingress + p.baseLatency + Jitter(p, d(JITTER)) + Slots(p, d(REORDER)) * p.slot;
    if due < 0 || due > U64_MAX then None
    else
      var start := if due > available then due else available;
      var duration := Duration(bits, p.bitrate);
      if start + duration > U64_MAX then None else Some(Timing(due, start, duration, start + duration))
  }

  lemma RoundedUp(bits: nat, bitrate: nat)
    requires 0 < bitrate
    ensures bits * GIGA <= Duration(bits, bitrate) * bitrate
    ensures 0 < bits ==> (Duration(bits, bitrate) - 1) * bitrate < bits * GIGA
    ensures 0 < bits ==> 0 < Duration(bits, bitrate)
  {
    CeilingDivision(bits * GIGA, bitrate);
    var q := Duration(bits, bitrate);
    hide Duration;
    assert 0 < bits ==> 0 < bits * GIGA;
    if 0 < bits {
      Cancel(0, q, bitrate);
    }
  }

  lemma CeilingDivision(x: nat, d: nat)
    requires 0 < d
    ensures var q := (x + d - 1) / d;
      x <= q * d && (0 < x ==> (q - 1) * d < x)
  {
    var q, r := (x + d - 1) / d, (x + d - 1) % d;
    assert x + d - 1 == q * d + r;
    assert (q - 1) * d == q * d - d;
  }

  lemma JitterIsBounded(p: Profile, draw: nat)
    requires draw <= U64_MAX
    ensures 0 <= Jitter(p, draw) + p.jitterAbs <= 2 * p.jitterAbs
  {
    if p.jitterAbs != 0 {
      DrawIsInRange(2 * p.jitterAbs + 1, draw);
    }
  }

  /** A frame leaves no earlier than it came in, after everything sent before it, and takes its air time. */
  lemma TimingIsSound(p: Profile, d: Draws, bits: nat, ingress: nat, available: nat)
    requires Valid(p) && Bits64(d) && TimingOf(p, d, bits, ingress, available).Some?
    ensures var t := TimingOf(p, d, bits, ingress, available).value;
      && ingress <= t.due <= t.start && available <= t.start
      && (t.start == t.due || t.start == available)
      && t.release == t.start + t.duration
      && bits * GIGA <= t.duration * p.bitrate
      && (0 < bits ==> (t.duration - 1) * p.bitrate < bits * GIGA && t.start < t.release)
  {
    JitterIsBounded(p, d(JITTER));
    RoundedUp(bits, p.bitrate);
    assert Slots(p, d(REORDER)) * p.slot >= 0;
    hide Duration, Jitter, Slots;
  }

  /** The jitter of a frame: none, or an even draw between its two extremes. */
  function JitterOf(p: Profile, d: Draws): int {
    if p.jitterAbs == 0 then 0 else DrawBounded(2 * p.jitterAbs + 1, d(JITTER)) - p.jitterAbs
  }

  /** The reorder delay of a frame: none, or an even draw of whole slots up to the window. */
  function ReorderOf(p: Profile, d: Draws): nat {
    if p.windowSlots == 0 then 0 else DrawBounded(p.windowSlots + 1, d(REORDER)) * p.slot
  }

  /** A frame is due after latency, jitter and reorder delay; times that do not fit 64 bits are refused, and no others. */
  lemma TimingIsExact(p: Profile, d: Draws, bits: nat, ingress: nat, available: nat)
    requires Valid(p) && Bits64(d)
    ensures var due := ingress + p.baseLatency + JitterOf(p, d) + ReorderOf(p, d);
      var start := if due > available then due else available;
      && ingress <= due
      && (TimingOf(p, d, bits, ingress, available).Some? <==> due <= U64_MAX && start + Duration(bits, p.bitrate) <= U64_MAX)
      && (TimingOf(p, d, bits, ingress, available).Some? ==>
            TimingOf(p, d, bits, ingress, available).value == Timing(due, start, Duration(bits, p.bitrate), start + Duration(bits, p.bitrate)))
  {
    JitterIsBounded(p, d(JITTER));
    assert Slots(p, d(REORDER)) * p.slot == ReorderOf(p, d);
    hide Duration, DrawBounded;
  }

  // ---------------------------------------------------------------- the serializer over a run

  /** One transmission: the copy's size, the bitrate it was sent at, and its air time. */
  datatype Transmission = Transmission(bits: nat, bitrate: nat, ingress: nat, start: nat, release: nat)

  /** Each transmission follows the one before and is long enough for its bits. */
  ghost predicate Serialized(ts: seq<Transmission>) {
    && (forall i :: 0 <= i < |ts| ==>
          ts[i].ingress <= ts[i].start <= ts[i].release && ts[i].bits * GIGA <= (ts[i].release - ts[i].start) * ts[i].bitrate)
    && (forall i :: 0 < i < |ts| ==> ts[i - 1].release <= ts[i].start)
  }

  function BitsOf(ts: seq<Transmission>): nat {
    if ts == [] then 0 else BitsOf(ts[..|ts| - 1]) + ts[|ts| - 1].bits
  }

  /** Sending one more copy from the serializer's free moment keeps the log serialized. */
  lemma SendKeepsSerialized(ts: seq<Transmission>, p: Profile, d: Draws, bits: nat, ingress: nat, available: nat)
    requires Serialized(ts) && Valid(p) && Bits64(d)
    requires available == if ts == [] then 0 else ts[|ts| - 1].release
    requires TimingOf(p, d, bits, ingress, available).Some?
    ensures var t := TimingOf(p, d, bits, ingress, available).value;
      Serialized(ts + [Transmission(bits, p.bitrate, ingress, t.start, t.release)])
  {
    TimingIsSound(p, d, bits, ingress, available);
    hide TimingOf;
  }

  lemma {:induction false} OrderedTimes(ts: seq<Transmission>, i: nat, j: nat)
    requires Serialized(ts) && i < j < |ts|
    ensures ts[i].release <= ts[j].start
    decreases j
  {
    assert ts[j - 1].release <= ts[j].start;
    if i < j - 1 {
      OrderedTimes(ts, i, j - 1);
    }
  }

  /** Air times never overlap. */
  lemma AirTimesAreDisjoint(ts: seq<Transmission>, i: nat, j: nat, x: nat)
    requires Serialized(ts) && i < j < |ts|
    ensures !(ts[i].start <= x < ts[i].release && ts[j].start <= x < ts[j].release)
  {
    OrderedTimes(ts, i, j);
  }

  /** No stretch of transmissions carries more bits than the bitrate allows for its length. */
  lemma {:induction false} ThroughputIsBounded(ts: seq<Transmission>, bitrate: nat)
    requires Serialized(ts) && ts != [] && forall i :: 0 <= i < |ts| ==> ts[i].bitrate <= bitrate
    ensures ts[0].start <= ts[|ts| - 1].release
    ensures GIGA * BitsOf(ts) <= bitrate * (ts[|ts| - 1].release - ts[0].start)
    decreases |ts|
  {
    var n := |ts| - 1;
    var last := ts[n];
    AirTime(last, bitrate);
    if n == 0 {
      assert ts[..0] == [];
    } else {
      var init := ts[..n];
      SerializedInit(ts);
      ThroughputIsBounded(init, bitrate);
      assert init[n - 1] == ts[n - 1] && init[0] == ts[0];
      var before, first, mid := BitsOf(init), ts[0].start, ts[n - 1].release;
      assert first <= mid <= last.start <= last.release && GIGA * before <= bitrate * (mid - first) && BitsOf(ts) == before + last.bits;
      hide BitsOf, Serialized;
      Spread(bitrate, first, mid, last.start, last.release, before, last.bits);
    }
  }

  lemma SerializedInit(ts: seq<Transmission>)
    requires Serialized(ts) && 1 < |ts|
    ensures Serialized(ts[..|ts| - 1]) && ts[|ts| - 2].release <= ts[|ts| - 1].start
  {
    var init := ts[..|ts| - 1];
    forall i | 0 < i < |init| ensures init[i - 1].release <= init[i].start {
      assert ts[i - 1].release <= ts[i].start;
    }
  }

  lemma AirTime(t: Transmission, bitrate: nat)
    requires t.start <= t.release && t.bits * GIGA <= (t.release - t.start) * t.bitrate && t.bitrate <= bitrate
    ensures GIGA * t.bits <= bitrate * (t.release - t.start)
  {
    MulMonotone(t.release - t.start, t.bitrate, bitrate);
  }

  lemma Spread(rate: nat, first: nat, mid: nat, start: nat, end: nat, before: nat, last: nat)
    requires first <= mid <= start <= end
    requires GIGA * before <= rate * (mid - first) && GIGA * last <= rate * (end - start)
    ensures GIGA * (before + last) <= rate * (end - first)
  {
    assert rate * (end - first) == rate * (mid - first) + rate * (start - mid) + rate * (end - start) by {
      Distribute(rate, mid - first, start - mid, end - start);
    }
    assert rate * (start - mid) >= 0;
  }

  lemma Distribute(rate: nat, a: nat, b: nat, c: nat)
    ensures rate * (a + b + c) == rate * a + rate * b + rate * c
  {
  }

  lemma StretchIsSerialized(ts: seq<Transmission>, i: nat, j: nat)
    requires Serialized(ts) && i <= j <= |ts|
    ensures Serialized(ts[i..j])
  {
    forall k | 0 < k < j - i ensures ts[i..j][k - 1].release <= ts[i..j][k].start {
      assert ts[i + k - 1].release <= ts[i + k].start;
    }
  }

  /** No stretch of a run carries more bits than the bitrate allows between its first start and last release. */
  lemma AnyStretchIsBounded(ts: seq<Transmission>, i: nat, j: nat, bitrate: nat)
    requires Serialized(ts) && i < j <= |ts| && forall k :: i <= k < j ==> ts[k].bitrate <= bitrate
    ensures ts[i].start <= ts[j - 1].release
    ensures GIGA * BitsOf(ts[i..j]) <= bitrate * (ts[j - 1].release - ts[i].start)
  {
    StretchIsSerialized(ts, i, j);
    ThroughputIsBounded(ts[i..j], bitrate);
  }

  // ---------------------------------------------------------------- corruption

  function Mask(bit: nat): bv8 {
    match bit % 8
    case 0 => 0x80
    case 1 => 0x40
    case 2 => 0x20
    case 3 => 0x10
    case 4 => 0x08
    case 5 => 0x04
    case 6 => 0x02
    case _ => 0x01
  }

  /** Bit `bit` of a frame, counted from the most significant bit of its first byte. */
  predicate BitAt(frame: seq<bv8>, bit: nat)
    requires bit < 8 * |frame|
  {
    InByte(frame[bit / 8], bit)
  }

  predicate InByte(b: bv8, bit: nat) {
    b & Mask(bit) != 0
  }

  function Flipped(b: bv8, bit: nat): bv8 {
    b ^ Mask(bit)
  }

  lemma FlipByte(b: bv8, one: nat, other: nat)
    ensures InByte(Flipped(b, one), other) <==> InByte(b, other) != (one % 8 == other % 8)
  {
  }

  /** Whether a bit is named an odd number of times. */
  predicate Odd(bits: seq<nat>, bit: nat) {
    if bits == [] then false else Odd(bits[..|bits| - 1], bit) != (bits[|bits| - 1] == bit)
  }

  function FlipAt(frame: seq<bv8>, bit: nat): seq<bv8>
    requires bit < 8 * |frame|
  {
    frame[bit / 8 := Flipped(frame[bit / 8], bit)]
  }

  /** A flip changes the named bit and no other. */
  lemma FlipChangesOneBit(frame: seq<bv8>, bit: nat, b: nat)
    requires bit < 8 * |frame| && b < 8 * |frame|
    ensures BitAt(FlipAt(frame, bit), b) <==> BitAt(frame, b) != (b == bit)
  {
    hide Mask, InByte, Flipped;
    FlipByte(frame[bit / 8], bit, b);
    SameBit(bit, b);
  }

  lemma FlipOneMore(frame: seq<bv8>, now: seq<bv8>, bits: seq<nat>, k: nat)
    requires k < |bits| && bits[k] < 8 * |frame| && |now| == |frame|
    requires forall b: nat :: b < 8 * |frame| ==> (BitAt(now, b) <==> BitAt(frame, b) != Odd(bits[..k], b))
    ensures forall b: nat :: b < 8 * |frame| ==> (BitAt(FlipAt(now, bits[k]), b) <==> BitAt(frame, b) != Odd(bits[..k + 1], b))
  {
    assert bits[..k + 1][..k] == bits[..k];
    forall b: nat | b < 8 * |frame| ensures BitAt(FlipAt(now, bits[k]), b) <==> BitAt(frame, b) != Odd(bits[..k + 1], b) {
      FlipChangesOneBit(now, bits[k], b);
    }
  }

  /** Flips the named bits, each by its mask, in a copy of the frame. */
  method CorruptFrame(frame: seq<bv8>, bits: seq<nat>) returns (r: Option<seq<bv8>>)
    ensures r.None? <==> exists i :: 0 <= i < |bits| && bits[i] >= 8 * |frame|
    ensures r.Some? ==> |r.value| == |frame|
    ensures r.Some? ==> forall b: nat :: b < 8 * |frame| ==> (BitAt(r.value, b) <==> BitAt(frame, b) != Odd(bits, b))
  {
    hide Mask, Flipped, BitAt, Odd;
    var bytes := new bv8[|frame|](i requires 0 <= i < |frame| => frame[i]);
    assert bytes[..] == frame;
    NothingOdd();
    for k := 0 to |bits|
      invariant forall i :: 0 <= i < k ==> bits[i] < 8 * |frame|
      invariant forall b: nat :: b < 8 * |frame| ==> (BitAt(bytes[..], b) <==> BitAt(frame, b) != Odd(bits[..k], b))
    {
      var bit := bits[k];
      if bit >= 8 * |frame| {
        return None;
      }
      FlipOneMore(frame, bytes[..], bits, k);
      ghost var flipped := FlipAt(bytes[..], bit);
      bytes[bit / 8] := Flipped(bytes[bit / 8], bit);
      assert bytes[..] == flipped;
    }
    assert bits[..|bits|] == bits;
    r := Some(bytes[..]);
  }

  lemma NothingOdd()
    ensures forall b :: !Odd([], b)
  {
  }

  lemma SameBit(a: nat, b: nat)
    ensures a / 8 == b / 8 && a % 8 == b % 8 <==> a == b
  {
  }

  /** With distinct bits exactly the named ones are flipped. */
  lemma {:induction false} OddOfDistinct(bits: seq<nat>, bit: nat)
    requires forall i, j :: 0 <= i < j < |bits| ==> bits[i] != bits[j]
    ensures Odd(bits, bit) <==> bit in bits
  {
    if bits != [] {
      var init := bits[..|bits| - 1];
      assert bits == init + [bits[|bits| - 1]];
      OddOfDistinct(init, bit);
    }
  }
}
