/**
 DATA packets of any origin and any cut: if no two of them contradict each other, what a
 receiving epoch holds in the end depends on which packets came, not on their order or number.
 */
module ArrivalOrder {
  import opened Bytes
  import opened FilePackets
  import opened Reassembly

  predicate Fits(p: FilePacket, size: nat) {
    p.kind == DATA && 1 <= p.sequenceIndex && p.payload != [] && p.offset + |p.payload| <= size
  }

  predicate Covers(p: FilePacket, x: nat) {
    Within(x, p.offset, |p.payload|)
  }

  /** Shared positions carry the same byte, and one sequence index names one place. */
  ghost predicate Agree(p: FilePacket, q: FilePacket) {
    && (p.sequenceIndex == q.sequenceIndex ==> p.offset == q.offset && |p.payload| == |q.payload|)
    && forall x: nat :: Covers(p, x) && Covers(q, x) ==> p.payload[x - p.offset] == q.payload[x - q.offset]
  }

  ghost predicate Harmonious(ps: set<FilePacket>, size: nat) {
    && (forall p :: p in ps ==> Fits(p, size))
    && (forall p, q :: p in ps && q in ps ==> Agree(p, q))
  }

  ghost predicate CoveredBy(ps: set<FilePacket>, x: nat) {
    exists p :: p in ps && Covers(p, x)
  }

  ghost predicate Numbered(ps: set<FilePacket>, k: nat) {
    exists p :: p in ps && p.sequenceIndex == k
  }

  /** The bytes are exactly those the packets bring. */
  ghost predicate HoldsBytes(content: map<nat, byte>, ps: set<FilePacket>) {
    && (forall x :: x in content <==> CoveredBy(ps, x))
    && (forall p, x: nat :: p in ps && Covers(p, x) ==> x in content && content[x] == p.payload[x - p.offset])
  }

  /** The packet table is exactly that of the packets. */
  ghost predicate HoldsPlaces(packets: map<nat, Placement>, ps: set<FilePacket>) {
    && (forall k :: k in packets <==> Numbered(ps, k))
    && (forall p :: p in ps ==> p.sequenceIndex in packets && packets[p.sequenceIndex] == PlaceOf(p))
  }

  /** The epoch holds exactly what these packets bring. */
  ghost predicate HoldsExactly(e: Epoch, ps: set<FilePacket>) {
    e.status == RECEIVING && e.received == |e.content| && HoldsBytes(e.content, ps) && HoldsPlaces(e.packets, ps)
  }

  lemma BytesJoin(content: map<nat, byte>, ps: set<FilePacket>, p: FilePacket)
    requires HoldsBytes(content, ps) && Agrees(content, p.offset, p.payload)
    ensures HoldsBytes(content + Segment(p.offset, p.payload), ps + {p})
  {
    var joined := content + Segment(p.offset, p.payload);
    forall x: nat ensures x in joined <==> CoveredBy(ps + {p}, x) {
      CoveredByOneMore(ps, p, x);
    }
    hide CoveredBy;
    forall q, x: nat | q in ps + {p} && Covers(q, x) ensures x in joined && joined[x] == q.payload[x - q.offset] {
      if q in ps {
        assert x in content && content[x] == q.payload[x - q.offset];
      }
    }
  }

  lemma PlaceJoins(packets: map<nat, Placement>, ps: set<FilePacket>, p: FilePacket)
    requires HoldsPlaces(packets, ps) && (p.sequenceIndex in packets ==> packets[p.sequenceIndex] == PlaceOf(p))
    ensures HoldsPlaces(packets[p.sequenceIndex := PlaceOf(p)], ps + {p})
  {
    forall k: nat ensures k in packets[p.sequenceIndex := PlaceOf(p)] <==> Numbered(ps + {p}, k) {
      NumberedByOneMore(ps, p, k);
    }
    hide Numbered;
  }

  lemma NewcomerAgrees(ps: set<FilePacket>, p: FilePacket, size: nat)
    requires Harmonious(ps + {p}, size)
    ensures Fits(p, size) && forall q :: q in ps ==> Agree(q, p)
  {
    assert p in ps + {p};
    forall q | q in ps ensures Agree(q, p) {
      assert q in ps + {p};
    }
  }

  lemma BytesAgree(content: map<nat, byte>, ps: set<FilePacket>, p: FilePacket)
    requires HoldsBytes(content, ps) && forall q :: q in ps ==> Agree(q, p)
    ensures Agrees(content, p.offset, p.payload)
  {
    forall x | x in content && p.offset <= x < p.offset + |p.payload| ensures content[x] == p.payload[x - p.offset] {
      assert CoveredBy(ps, x);
      var q :| q in ps && Covers(q, x);
      assert Agree(q, p) && Covers(p, x);
    }
  }

  /** A packet in harmony with those before contradicts no byte and no place. */
  lemma PacketFits(e: Epoch, ps: set<FilePacket>, p: FilePacket)
    requires HoldsExactly(e, ps) && Harmonious(ps + {p}, e.meta.size)
    ensures Fits(p, e.meta.size) && Agrees(e.content, p.offset, p.payload)
    ensures p.sequenceIndex in e.packets ==>
      e.packets[p.sequenceIndex] == PlaceOf(p) && e.content + Segment(p.offset, p.payload) == e.content
  {
    NewcomerAgrees(ps, p, e.meta.size);
    BytesAgree(e.content, ps, p);
    if p.sequenceIndex in e.packets {
      SamePlace(e.packets, ps, p);
      var q :| q in ps && q.sequenceIndex == p.sequenceIndex && PlaceOf(p) == PlaceOf(q);
      hide Harmonious, HoldsBytes, Agree, Agrees, Segment, Fits;
      RepeatAddsNothing(e.content, ps, p, q);
    }
  }

  lemma SamePlace(packets: map<nat, Placement>, ps: set<FilePacket>, p: FilePacket)
    requires HoldsPlaces(packets, ps) && p.sequenceIndex in packets && forall q :: q in ps ==> Agree(q, p)
    ensures packets[p.sequenceIndex] == PlaceOf(p)
    ensures exists q :: q in ps && q.sequenceIndex == p.sequenceIndex && PlaceOf(p) == PlaceOf(q)
  {
    assert Numbered(ps, p.sequenceIndex);
    var q :| q in ps && q.sequenceIndex == p.sequenceIndex;
    assert Agree(q, p) && packets[q.sequenceIndex] == PlaceOf(q);
  }

  lemma RepeatAddsNothing(content: map<nat, byte>, ps: set<FilePacket>, p: FilePacket, q: FilePacket)
    requires HoldsBytes(content, ps) && q in ps && Agree(q, p) && PlaceOf(p) == PlaceOf(q)
    ensures content + Segment(p.offset, p.payload) == content
  {
    hide CoveredBy;
    forall x: nat | Covers(p, x) ensures x in content && content[x] == p.payload[x - p.offset] {
      assert Covers(q, x);
    }
  }

  /** A packet in harmony with those before is accepted, and joins them. */
  lemma PacketJoins(e: Epoch, ps: set<FilePacket>, p: FilePacket, now: int)
    requires HoldsExactly(e, ps) && Harmonious(ps + {p}, e.meta.size)
    ensures AcceptData(e, p, now).Ok?
    ensures HoldsExactly(AcceptData(e, p, now).value, ps + {p})
  {
    PacketFits(e, ps, p);
    BytesJoin(e.content, ps, p);
    PlaceJoins(e.packets, ps, p);
    hide Harmonious, HoldsBytes, HoldsPlaces, Agrees, Segment;
    if p.sequenceIndex in e.packets {
      assert e.packets[p.sequenceIndex := PlaceOf(p)] == e.packets;
    }
  }

  lemma CoveredByOneMore(ps: set<FilePacket>, p: FilePacket, x: nat)
    ensures CoveredBy(ps + {p}, x) <==> CoveredBy(ps, x) || Covers(p, x)
  {
    assert p in ps + {p};
    if CoveredBy(ps, x) {
      var q :| q in ps && Covers(q, x);
      assert q in ps + {p};
    }
  }

  lemma NumberedByOneMore(ps: set<FilePacket>, p: FilePacket, k: nat)
    ensures Numbered(ps + {p}, k) <==> Numbered(ps, k) || p.sequenceIndex == k
  {
    assert p in ps + {p};
    if Numbered(ps, k) {
      var q :| q in ps && q.sequenceIndex == k;
      assert q in ps + {p};
    }
  }

  ghost function PacketsOf(arrivals: seq<Arrival>): set<FilePacket> {
    set a | a in arrivals :: a.packet
  }

  lemma {:induction false} HarmoniousArrive(meta: Meta, begun: int, arrivals: seq<Arrival>, env: Env)
    requires Harmonious(PacketsOf(arrivals), meta.size)
    ensures forall a :: a in arrivals ==> a.packet.kind != START
    ensures HoldsExactly(Run(NewEpoch(meta, begun), arrivals, env), PacketsOf(arrivals))
    ensures Run(NewEpoch(meta, begun), arrivals, env).(content := map[], packets := map[], received := 0, updatedAt := begun)
         == NewEpoch(meta, begun)
  {
    assert forall a :: a in arrivals ==> a.packet in PacketsOf(arrivals);
    if arrivals == [] {
      assert PacketsOf(arrivals) == {};
      assert HoldsExactly(NewEpoch(meta, begun), {});
    } else {
      var init, last := arrivals[..|arrivals| - 1], arrivals[|arrivals| - 1];
      assert arrivals == init + [last];
      assert PacketsOf(arrivals) == PacketsOf(init) + {last.packet};
      assert Harmonious(PacketsOf(init), meta.size);
      hide HoldsExactly, PacketsOf, Harmonious;
      HarmoniousArrive(meta, begun, init, env);
      var e := Run(NewEpoch(meta, begun), init, env);
      hide Run;
      assert e.meta == meta;
      PacketJoins(e, PacketsOf(init), last.packet, last.at);
      LastIsData(e, last, env);
    }
  }

  lemma LastIsData(e: Epoch, a: Arrival, env: Env)
    requires e.status == RECEIVING && a.packet.kind == DATA && AcceptData(e, a.packet, a.at).Ok?
    ensures var d := AcceptData(e, a.packet, a.at).value;
      After(e, a, env) == d && d.(content := e.content, packets := e.packets, received := e.received, updatedAt := e.updatedAt) == e
  {
  }

  /** Two arrival orders of the same packets, repeated at will, leave the same bytes, packets and count. */
  lemma AnyOrderIsTheSame(meta: Meta, begun: int, one: seq<Arrival>, other: seq<Arrival>, env: Env)
    requires Harmonious(PacketsOf(one), meta.size) && PacketsOf(one) == PacketsOf(other)
    ensures forall a :: (a in one || a in other) ==> a.packet.kind != START
    ensures Run(NewEpoch(meta, begun), one, env).(updatedAt := 0) == Run(NewEpoch(meta, begun), other, env).(updatedAt := 0)
  {
    HarmoniousArrive(meta, begun, one, env);
    HarmoniousArrive(meta, begun, other, env);
    hide Run, Harmonious;
    SameHoldings(Run(NewEpoch(meta, begun), one, env), Run(NewEpoch(meta, begun), other, env), PacketsOf(one));
  }

  lemma SameHoldings(d: Epoch, e: Epoch, ps: set<FilePacket>)
    requires HoldsExactly(d, ps) && HoldsExactly(e, ps)
    ensures d.content == e.content && d.packets == e.packets && d.received == e.received
  {
    forall x | x in d.content ensures d.content[x] == e.content[x] {
      var p :| p in ps && Covers(p, x);
    }
    forall k | k in d.packets ensures d.packets[k] == e.packets[k] {
      var p :| p in ps && p.sequenceIndex == k;
    }
    assert d.content == e.content;
  }
}
