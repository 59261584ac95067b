/** What each action does to a node, spelled out in the terms of its inputs: times, addresses, header fields. */
module NodeEffects {
  import opened Types
  import opened Geometry
  import opened Packets
  import opened Routing
  import opened PositionTable
  import opened RequestQueue
  import opened NodeModel
  import opened NodeRuns
  import opened UnitDisc
  import Beacons

  // ---------- hearing a HELLO ----------

  /** A HELLO makes its sender known at exactly the advertised position, for less than the lifetime of entries
      (counted from time 0 at the zero address); every other entry, and all else, is as before. */
  lemma HelloEffect(c: Config, st: State, m: Moment, sender: Addr, pos: Point, later: Time)
    requires c.maxLen > 0
    ensures var after := Step(c, st, m, Hear(sender, pos));
            var view := LivePositions(c, after.table, later);
            && after == st.(table := after.table)
            && (sender in view <==> later < c.lifeTime + if sender == 0 then 0 else m.now)
            && (sender in view ==> view[sender].x == pos.x && view[sender].y == pos.y)
            && after.table - {sender} == st.table - {sender}
  {
    HelloLivesExactly(st.table, c.lifeTime, sender, pos, m.now, later);
  }

  /** It is the step that the network of beacons is made of. */
  lemma HelloIsBeacon(net: Network, c: Config, st: State, m: Moment, v: Addr, u: Addr)
    requires c.maxLen > 0 && v in net.pos && u in View(net, v)
    ensures Step(c, st, m, Hear(u, net.pos[u])) == st.(table := Beacons.Heard(net, st.table, v, u, m.now))
  {
  }

  // ---------- deferring ----------

  /** A queued packet of this identity, for this destination, is still in time. */
  ghost predicate AlreadyWaits(q: seq<QueueEntry>, now: Time, packet: Packet, header: IpHeader) {
    exists f :: f in q && now <= f.expire && f.packet.uid == packet.uid && f.header.dst == header.dst
  }

  lemma StillFresh(q: seq<QueueEntry>, now: Time)
    ensures Fresh(Fresh(q, now), now) == Fresh(q, now) && Stale(Fresh(q, now), now) == []
  {
    SelectMembers(q, InTime(now));
    SelectAll(Fresh(q, now), InTime(now));
    SelectNone(Fresh(q, now), Outdated(now));
  }

  /** Deferral, exactly: the packet goes behind those still in time, or is refused if it already waits; a full
      queue gives up its first; the expired are reported; and the timer, if the queue was empty, is set to half
      a second from now, and otherwise left alone. */
  lemma DeferralEffect(c: Config, st: State, now: Time, packet: Packet, header: IpHeader)
    requires c.maxLen > 0
    ensures var after, live := Deferred(c, st, now, packet, header), Fresh(st.queue, now);
            var reported := st.log + Reports(Stale(st.queue, now));
            var entry := QueueEntry(packet, header, now + c.timeout);
            && after.table == st.table
            && (AlreadyWaits(st.queue, now, packet, header) ==>
                  after.queue == live && after.log == reported + [Duplicate(header, packet)])
            && (!AlreadyWaits(st.queue, now, packet, header) && |live| != c.maxLen ==>
                  after.queue == live + [entry] && after.log == reported)
            && (!AlreadyWaits(st.queue, now, packet, header) && |live| == c.maxLen ==>
                  after.queue == live[1..] + [entry] && after.log == reported + [Reported(live[0])])
  {
    var live := Fresh(st.queue, now);
    StillFresh(st.queue, now);
    EnqueueExactly(live, c.maxLen, c.timeout, now, QueueEntry(packet, header, now + now));
    FreshAndStale(st.queue, now);
    assert AlreadyWaits(st.queue, now, packet, header) <==> AlreadyWaits(live, now, packet, header);
  }

  lemma DeferralSetsTimer(c: Config, st: State, now: Time, packet: Packet, header: IpHeader)
    requires c.maxLen > 0
    ensures var after := Deferred(c, st, now, packet, header);
            && ((exists f :: f in st.queue && now <= f.expire) ==> after.timer == st.timer)
            && ((forall f :: f in st.queue ==> f.expire < now) ==> after.timer == Some(now + 500_000_000))
  {
    FreshAndStale(st.queue, now);
    var live := Fresh(st.queue, now);
    assert live != [] ==> live[0] in live;
  }

  // ---------- the address list ----------

  ghost predicate Doubled(s: seq<Addr>, i: nat)
    requires i + 1 < |s|
  {
    s[i] == s[i + 1]
  }

  lemma {:induction false} UniqueHasNoneDoubled(s: seq<Addr>)
    ensures forall i :: 0 <= i < |Unique(s)| - 1 ==> !Doubled(Unique(s), i)
  {
    if |s| > 1 {
      var n := |s| - 1;
      var rest := Unique(s[..n]);
      UniqueHasNoneDoubled(s[..n]);
      UniqueEnds(s[..n]);
      forall i | 0 <= i < |Unique(s)| - 1
        ensures !Doubled(Unique(s), i)
      {
        assert i < |rest| - 1 ==> !Doubled(rest, i);
      }
    }
  }

  /** unique() takes out the adjacent duplicates and nothing else: its result has none, and a list is put together
      from its parts, with one element less where they meet in a duplicate. */
  lemma {:induction false} UniqueOfParts(p: seq<Addr>, q: seq<Addr>)
    requires p != [] && q != []
    ensures Unique(p) != [] && Unique(q) != [] && Unique(q)[0] == q[0] && Unique(p)[|Unique(p)| - 1] == p[|p| - 1]
    ensures Unique(p + q) == if p[|p| - 1] == q[0] then Unique(p) + Unique(q)[1..] else Unique(p) + Unique(q)
  {
    UniqueEnds(p);
    UniqueEnds(q);
    var n := |q| - 1;
    assert (p + q)[..|p| + n] == p + q[..n];
    if n == 0 {
      assert p + q[..0] == p;
    } else {
      UniqueOfParts(p, q[..n]);
    }
  }

  lemma {:induction false} UniqueEnds(s: seq<Addr>)
    requires s != []
    ensures Unique(s) != [] && Unique(s)[0] == s[0] && Unique(s)[|Unique(s)| - 1] == s[|s| - 1]
  {
    if |s| > 1 {
      UniqueEnds(s[..|s| - 1]);
    }
  }

  /** Deferral puts the destination first on the list, which then has no adjacent duplicates. */
  lemma DeferralLists(c: Config, st: State, now: Time, packet: Packet, header: IpHeader)
    requires c.maxLen > 0
    ensures var addrs := Deferred(c, st, now, packet, header).addrs;
            && addrs != [] && addrs[0] == header.dst
            && (forall i :: 0 <= i < |addrs| - 1 ==> !Doubled(addrs, i))
            && (forall a :: a in addrs <==> a == header.dst || a in st.addrs)
  {
    UniqueHasNoneDoubled([header.dst] + st.addrs);
    UniqueEnds([header.dst] + st.addrs);
    UniqueMembers([header.dst] + st.addrs);
  }

  /** remove() takes out every occurrence and keeps the others in order. */
  lemma {:induction false} RemoveOfParts(p: seq<Addr>, q: seq<Addr>, a: Addr)
    ensures Remove(p + q, a) == Remove(p, a) + Remove(q, a)
  {
    if q == [] {
      assert p + q == p;
    } else {
      var n := |q| - 1;
      assert (p + q)[..|p| + n] == p + q[..n];
      RemoveOfParts(p, q[..n], a);
    }
  }

  lemma RemoveOfOne(a: Addr, b: Addr)
    ensures Remove([b], a) == if b == a then [] else [b]
  {
    assert [b][..0] == [];
  }

  // ---------- receiving ----------

  /** A packet that arrives: refused by a node without addresses; deferred, without its tag, if this node has sent
      it to itself for that; delivered without headers if it is for this node, and refused if its type is unknown. */
  lemma ReceptionEffect(c: Config, st: State, m: Moment, packet: Packet, header: IpHeader)
    requires c.maxLen > 0
    ensures var (after, handled) := Received(c, st, m, packet, header);
            var toSelf := packet.tagged && header.src in c.own;
            && (c.own == {} ==> after == st.(log := st.log + [Refused(header, packet)]) && !handled)
            && (toSelf ==> after == Deferred(c, st, m.now, Packet(packet.uid, packet.bytes, false), header) && handled)
            && (c.own != {} && !toSelf && header.dst in c.local && !IsData(packet.bytes) ==>
                  after == st.(log := st.log + [Refused(header, packet)]) && !handled)
            && (c.own != {} && !toSelf && header.dst in c.local && IsData(packet.bytes) ==>
                  && after == st.(log := st.log + [Delivered(header, packet.uid, Parse(packet.bytes).payload)])
                  && handled)
  {
  }

  /** A packet that passes through: by the decision of Forwarding it is handed to the next hop, once, in its new
      header, or deferred in it; one of unknown type is refused. Either way the table is purged. */
  lemma PassingEffect(c: Config, st: State, m: Moment, packet: Packet, header: IpHeader)
    requires c.maxLen > 0 && c.own != {} && header.dst !in c.local && !(packet.tagged && header.src in c.own)
    ensures var (after, handled) := Received(c, st, m, packet, header);
            var purged := st.(table := Live(st.table, c.lifeTime, m.now));
            if !IsData(packet.bytes) then
              after == purged.(log := st.log + [Refused(header, packet)]) && !handled
            else
              var arrived := Parse(packet.bytes);
              var view, fix := LivePositions(c, st.table, m.now), m.places(header.dst).fix;
              var d := Forward(c.graph, view, m.here, header.dst, arrived.hdr, fix);
              var onward := packet.(bytes := Frame(d.hdr, arrived.payload));
              && handled
              && after == match d
                          case Transmit(nextHop, _) => purged.(log := st.log + [Forwarded(nextHop, header, onward)])
                          case Defer(_) => Deferred(c, purged, m.now, onward, header)
  {
  }

  // ---------- the timer and new packets ----------

  /** The timer does nothing before its time; a check sets it to half a second from now if addresses are left,
      and leaves it off if not. */
  lemma TimerEffect(c: Config, st: State, m: Moment)
    requires c.maxLen > 0
    ensures var after := Step(c, st, m, TimerFires);
            && (st.timer == None || m.now < st.timer.value ==> after == st)
            && (st.timer.Some? && st.timer.value <= m.now ==>
                  after.timer == if after.addrs == [] then None else Some(m.now + 500_000_000))
  {
  }

  /** The header of a new packet: out of recovery, last seen here, with the service's position and its time, or
      with nothing known if it is a broadcast. Asking for its next hop purges the table unless its destination is
      in it. */
  lemma NewPacketEffect(narrow: U64 -> U16, c: Config, st: State, m: Moment, dst: Addr, broadcast: Addr)
    requires IsNarrowing(narrow) && c.maxLen > 0
    ensures var first, fix := FirstHeader(narrow, m, dst, broadcast), m.places(dst).fix;
            && first.inRec == 0 && first.rec == Point(0, 0) && first.last == m.here
            && (dst == broadcast ==> first.dst == Point(0, 0) && first.updated == 0)
            && (dst != broadcast ==> first.updated == fix.updated)
            && (dst != broadcast && fix.pos.x < 65536 ==> first.dst.x == fix.pos.x)
            && (dst != broadcast && fix.pos.y < 65536 ==> first.dst.y == fix.pos.y)
    ensures var after := Step(c, st, m, Originate(dst));
            && after == st.(table := after.table)
            && forall id :: id in after.table <==>
                 && id in st.table
                 && (dst in st.table || m.now < c.lifeTime + if id == 0 then 0 else st.table[id].updated)
  {
  }
}
