/** What leaves the queue, and where to: the log of SendPacketFromQueue and of CheckQueue, entry by entry. */
module Dispatch {
  import opened Types
  import opened Geometry
  import opened Neighbors
  import opened Packets
  import opened Routing
  import opened PositionTable
  import opened RequestQueue
  import opened NodeModel
  import opened NodeDrain

  // ---------- one packet ----------

  /** The event of a packet that goes to gateway greedily: its header carries on the newer of the two positions
      known, is out of recovery, and names this node twice; a placeholder source becomes this node's address. */
  ghost predicate GoesGreedily(c: Config, m: Moment, e: QueueEntry, gateway: Addr, ev: Event)
    requires IsData(e.packet.bytes)
  {
    var arrived, fix := Parse(e.packet.bytes), m.places(e.header.dst).fix;
    var goal := if fix.updated > arrived.hdr.updated then fix.pos else arrived.hdr.dst;
    var stamp := if fix.updated > arrived.hdr.updated then fix.updated else arrived.hdr.updated;
    var header := if e.header.src == 0x66_66_66_66 then IpHeader(c.address, e.header.dst) else e.header;
    ev == Forwarded(gateway, header,
                    e.packet.(bytes := Frame(PositionHeader(goal, stamp, m.here, 0, m.here), arrived.payload)))
  }

  /** The event of a packet that starts recovery here, turning from its header's position: it goes to the
      recovery hop, or is lost if there is none. */
  ghost predicate GoesIntoRecovery(c: Config, view: map<Addr, Point>, m: Moment, e: QueueEntry, ev: Event)
    requires IsData(e.packet.bytes)
  {
    var arrived := Parse(e.packet.bytes);
    var hdr := PositionHeader(arrived.hdr.dst, arrived.hdr.updated, m.here, 1, m.here);
    var packet := e.packet.(bytes := Frame(hdr, arrived.payload));
    if PlanarNeighbors(c.graph, Listed(view), m.here) == [] then ev == Stranded(e.header, packet)
    else ev == Forwarded(BestAngleOf(c.graph, view, arrived.hdr.dst, m.here), e.header, packet)
  }

  /** What becomes of a packet taken from the queue: thrown away if its type is unknown; else sent straight to its
      destination if that is in the table; else to the live neighbour closest to the service's position, if one is
      closer to it than this node; else into recovery. */
  ghost predicate DealtWith(c: Config, table: Table, m: Moment, e: QueueEntry, ev: Event) {
    var view, goal := LivePositions(c, table, m.now), m.places(e.header.dst).fix.pos;
    if !IsData(e.packet.bytes) then ev == Discarded(e.header, e.packet)
    else if e.header.dst in table then GoesGreedily(c, m, e, e.header.dst, ev)
    else if exists a :: a in view && Dist2(view[a], goal) < Dist2(m.here, goal) then
      exists a :: IsClosest(view, goal, a) && GoesGreedily(c, m, e, a, ev)
    else GoesIntoRecovery(c, view, m, e, ev)
  }

  lemma DealingDealsWith(c: Config, table: Table, m: Moment, e: QueueEntry)
    requires NO_ADDR !in LivePositions(c, table, m.now)
    ensures DealtWith(c, table, m, e, Dealing(c, table, m, e.header.dst)(e))
  {
    var view, goal := LivePositions(c, table, m.now), m.places(e.header.dst).fix.pos;
    var nextHop, ev := BestNeighborOf(Listed(view), goal, m.here), Dealing(c, table, m, e.header.dst)(e);
    BestNeighborIsArgmin(view, goal, m.here);
    if IsData(e.packet.bytes) {
      if e.header.dst in table {
        GreedyEvent(c, m, e, e.header.dst);
      } else if nextHop != NO_ADDR {
        GreedyEvent(c, m, e, nextHop);
        assert IsClosest(view, goal, nextHop) && GoesGreedily(c, m, e, nextHop, ev);
      } else {
        RecoveryEventIs(c, view, m, e);
      }
    }
  }

  lemma GreedyEvent(c: Config, m: Moment, e: QueueEntry, gateway: Addr)
    requires IsData(e.packet.bytes)
    ensures GoesGreedily(c, m, e, gateway, SentGreedily(c.address, m, gateway, e))
  {
  }

  lemma RecoveryEventIs(c: Config, view: map<Addr, Point>, m: Moment, e: QueueEntry)
    requires IsData(e.packet.bytes) && NO_ADDR !in view
    ensures GoesIntoRecovery(c, view, m, e, SentInRecovery(c.graph, m, view, e))
  {
    var hdr := Parse(e.packet.bytes).hdr;
    RecoverGoesToNeighbor(c.graph, view, m.here, PositionHeader(hdr.dst, hdr.updated, m.here, 1, hdr.dst));
  }

  // ---------- one attempt ----------

  /** The events say of the entries, one by one and in order, what becomes of them. */
  ghost predicate AllDealtWith(c: Config, table: Table, m: Moment, taken: seq<QueueEntry>, events: seq<Event>) {
    |events| == |taken| && forall i :: 0 <= i < |taken| ==> DealtWith(c, table, m, taken[i], events[i])
  }

  lemma {:induction false} DealsDealWithAll(c: Config, table: Table, m: Moment, dst: Addr, taken: seq<QueueEntry>)
    requires NO_ADDR !in LivePositions(c, table, m.now)
    requires forall e :: e in taken ==> e.header.dst == dst
    ensures AllDealtWith(c, table, m, taken, Deals(taken, Dealing(c, table, m, dst)))
  {
    if taken != [] {
      assert taken[0] in taken;
      DealingDealsWith(c, table, m, taken[0]);
      DealsDealWithAll(c, table, m, dst, taken[1..]);
      OneMoreDealtWith(c, table, m, taken, Deals(taken[1..], Dealing(c, table, m, dst)),
                       Dealing(c, table, m, dst)(taken[0]));
    }
  }

  lemma OneMoreDealtWith(c: Config, table: Table, m: Moment, taken: seq<QueueEntry>, events: seq<Event>, ev: Event)
    requires taken != [] && AllDealtWith(c, table, m, taken[1..], events)
    requires DealtWith(c, table, m, taken[0], ev)
    ensures AllDealtWith(c, table, m, taken, [ev] + events)
  {
    forall i | 0 <= i < |taken|
      ensures DealtWith(c, table, m, taken[i], ([ev] + events)[i])
    {
      assert i > 0 ==> DealtWith(c, table, m, taken[1..][i - 1], events[i - 1]);
    }
  }

  /** What is taken is what waits for dst, in order, up to the first packet of unknown type. */
  lemma {:induction false} TakenIsPrefix(w: seq<QueueEntry>)
    ensures TakenFrom(w) <= w
    ensures forall i :: 0 <= i < |TakenFrom(w)| - 1 ==> IsData(w[i].packet.bytes)
    ensures |TakenFrom(w)| < |w| ==> TakenFrom(w) != [] && !IsData(w[|TakenFrom(w)| - 1].packet.bytes)
  {
    if w != [] && IsData(w[0].packet.bytes) {
      TakenIsPrefix(w[1..]);
      assert w == [w[0]] + w[1..];
      assert forall i :: 0 < i < |w| ==> w[i] == w[1..][i - 1];
    }
  }

  lemma WaitingForExactly(q: seq<QueueEntry>, now: Time, dst: Addr)
    ensures forall e :: e in WaitingFor(q, now, dst) <==> e in q && now <= e.expire && e.header.dst == dst
  {
    SelectMembers(q, InTime(now));
    SelectMembers(Fresh(q, now), Toward(dst));
  }

  /** The log of one attempt for a destination that has a position: the expired packets are reported, and then
      there is one event for each packet taken, in the order they were accepted, which deals with it. The attempt
      succeeds if no packet of unknown type waits; the table is purged unless the destination is in it. */
  lemma AttemptLog(c: Config, st: State, m: Moment, dst: Addr) returns (events: seq<Event>)
    requires NO_ADDR !in LivePositions(c, st.table, m.now)
    requires !m.places(dst).inSearch && m.places(dst).hasPosition
    ensures var (after, done) := SentFromQueue(c, st, m, dst);
            && after.log == st.log + Reports(Stale(st.queue, m.now)) + events
            && (done <==> AllData(WaitingFor(st.queue, m.now, dst)))
            && after.table == if dst in st.table then st.table else Live(st.table, c.lifeTime, m.now)
    ensures AllDealtWith(c, st.table, m, TakenFrom(WaitingFor(st.queue, m.now, dst)), events)
    ensures events == Deals(TakenFrom(WaitingFor(st.queue, m.now, dst)), Dealing(c, st.table, m, dst))
  {
    var deal, w := Dealing(c, st.table, m, dst), WaitingFor(st.queue, m.now, dst);
    events := Deals(TakenFrom(w), deal);
    PumpStopsAtUnknown(st.queue, m.now, dst, deal);
    Append(st.log, Reports(Stale(st.queue, m.now)), events);
    TakenGoTo(st.queue, m.now, dst);
    DealsDealWithAll(c, st.table, m, dst, TakenFrom(w));
  }

  lemma Append(p: seq<Event>, q: seq<Event>, r: seq<Event>)
    ensures p + (q + r) == p + q + r
  {
  }

  lemma TakenGoTo(q: seq<QueueEntry>, now: Time, dst: Addr)
    ensures forall e :: e in TakenFrom(WaitingFor(q, now, dst)) ==> e.header.dst == dst
  {
    WaitingForExactly(q, now, dst);
    TakenIsPrefix(WaitingFor(q, now, dst));
  }

  /** An attempt for a destination in search changes nothing; one for a destination that has no position reports
      the expired packets and then those waiting for it, in order, and is done with it. */
  lemma AttemptWithoutPosition(c: Config, st: State, m: Moment, dst: Addr)
    ensures var (after, done) := SentFromQueue(c, st, m, dst);
            && (m.places(dst).inSearch ==> after == st && !done)
            && (!m.places(dst).inSearch && !m.places(dst).hasPosition ==>
                  && after.log == st.log + Reports(Stale(st.queue, m.now)) + Reports(WaitingFor(st.queue, m.now, dst))
                  && done && after.table == st.table)
  {
    ReportsConcat(Stale(st.queue, m.now), WaitingFor(st.queue, m.now, dst));
    Append(st.log, Reports(Stale(st.queue, m.now)), Reports(WaitingFor(st.queue, m.now, dst)));
  }

  /** Reports are one for one, in order. */
  lemma ReportsConcat(p: seq<QueueEntry>, q: seq<QueueEntry>)
    ensures |Reports(p)| == |p| && forall i :: 0 <= i < |p| ==> Reports(p)[i] == Reported(p[i])
    ensures Reports(p + q) == Reports(p) + Reports(q)
  {
  }

  // ---------- a whole check ----------

  /** The table during a check: as it was, or without its expired entries once it has been consulted. */
  ghost predicate TableOf(c: Config, st: State, m: Moment, table: Table) {
    table == st.table || table == Live(st.table, c.lifeTime, m.now)
  }

  lemma LivingOn(c: Config, table: Table, now: Time)
    ensures Live(Live(table, c.lifeTime, now), c.lifeTime, now) == Live(table, c.lifeTime, now)
  {
  }

  /** Each attempt of the sweep adds to the log and at most purges the table. */
  lemma {:induction false} SweepExtendsLog(c: Config, st: State, m: Moment, k: nat)
    requires k <= |st.addrs| && NO_ADDR !in LivePositions(c, st.table, m.now)
    ensures var swept := CheckedUpTo(c, st, m, k).0;
            && st.log <= swept.log && TableOf(c, st, m, swept.table)
            && LivePositions(c, swept.table, m.now) == LivePositions(c, st.table, m.now)
  {
    LivingOn(c, st.table, m.now);
    if k > 0 {
      SweepExtendsLog(c, st, m, k - 1);
      AttemptExtendsLog(c, CheckedUpTo(c, st, m, k - 1).0, m, st.addrs[k - 1]);
      LivingOn(c, CheckedUpTo(c, st, m, k - 1).0.table, m.now);
    }
  }

  lemma AttemptExtendsLog(c: Config, st: State, m: Moment, dst: Addr)
    ensures var after := SentFromQueue(c, st, m, dst).0;
            && st.log <= after.log && TableOf(c, st, m, after.table)
            && LivePositions(c, after.table, m.now) == LivePositions(c, st.table, m.now)
  {
    LivingOn(c, st.table, m.now);
  }

  lemma {:induction false} SweepKeepsPrefix(c: Config, st: State, m: Moment, j: nat, k: nat)
    requires j <= k <= |st.addrs|
    ensures CheckedUpTo(c, st, m, j).0.log <= CheckedUpTo(c, st, m, k).0.log
  {
    if j < k {
      SweepKeepsPrefix(c, st, m, j, k - 1);
      AttemptExtendsLog(c, CheckedUpTo(c, st, m, k - 1).0, m, st.addrs[k - 1]);
    }
  }

  /** Where an address is listed first. */
  lemma {:induction false} FirstListing(addrs: seq<Addr>, d: Addr) returns (k: nat)
    requires d in addrs
    ensures k < |addrs| && addrs[k] == d && Occurrences(addrs[..k], d) == 0
  {
    var n := |addrs| - 1;
    if d in addrs[..n] {
      k := FirstListing(addrs[..n], d);
      assert addrs[..n][..k] == addrs[..k];
    } else {
      k := n;
      assert addrs == addrs[..n] + [addrs[n]];
      ListedOccurs(addrs[..n], d);
    }
  }

  lemma CheckLogDeals(c: Config, st: State, m: Moment, d: Addr) returns (from: nat, table: Table)
    requires NO_ADDR !in LivePositions(c, st.table, m.now)
    requires d in st.addrs && !m.places(d).inSearch && m.places(d).hasPosition
    ensures |st.log| <= from && TableOf(c, st, m, table)
    ensures Contains(Checked(c, st, m).log, from,
                     Deals(TakenFrom(WaitingFor(st.queue, m.now, d)), Dealing(c, table, m, d)))
  {
    var k := FirstListing(st.addrs, d);
    var before := CheckedUpTo(c, st, m, k).0;
    SweepExtendsLog(c, st, m, k);
    SweepToward(c, st, m, k, d);
    var events := AttemptLog(c, before, m, d);
    table := before.table;
    from := |before.log| + |Reports(Stale(before.queue, m.now))|;
    SweepKeepsPrefix(c, st, m, k + 1, |st.addrs|);
    ContainedInLonger(before.log + Reports(Stale(before.queue, m.now)), events, Checked(c, st, m).log);
  }

  /** The log of a check: of every listed destination that is not in search and has a position, the packets that
      wait for it are dealt with in acceptance order, one event each, next to one another in the log, up to the
      first of unknown type; the table they are dealt with by is the node's, expired entries included or not. */
  lemma CheckLog(c: Config, st: State, m: Moment, d: Addr) returns (from: nat, table: Table)
    requires NO_ADDR !in LivePositions(c, st.table, m.now)
    requires d in st.addrs && !m.places(d).inSearch && m.places(d).hasPosition
    ensures st.log <= Checked(c, st, m).log && |st.log| <= from && TableOf(c, st, m, table)
    ensures var taken, log := TakenFrom(WaitingFor(st.queue, m.now, d)), Checked(c, st, m).log;
            from + |taken| <= |log| && AllDealtWith(c, table, m, taken, log[from..from + |taken|])
  {
    from, table := CheckLogDeals(c, st, m, d);
    SweepKeepsPrefix(c, st, m, 0, |st.addrs|);
    TableOfIsLive(c, st, m, table);
    TakenGoTo(st.queue, m.now, d);
    DealsDealWithAll(c, table, m, d, TakenFrom(WaitingFor(st.queue, m.now, d)));
  }

  lemma TableOfIsLive(c: Config, st: State, m: Moment, table: Table)
    requires TableOf(c, st, m, table)
    ensures LivePositions(c, table, m.now) == LivePositions(c, st.table, m.now)
  {
    LivingOn(c, st.table, m.now);
  }

  /** The events are in the log, from a place on. */
  ghost predicate Contains(log: seq<Event>, from: nat, events: seq<Event>) {
    from + |events| <= |log| && log[from..from + |events|] == events
  }

  lemma ContainedInLonger(front: seq<Event>, events: seq<Event>, log: seq<Event>)
    requires front + events <= log
    ensures Contains(log, |front|, events)
  {
    assert events == (front + events)[|front|..] == log[|front|..|front| + |events|];
  }

  lemma {:induction false} PlaceOf(entries: seq<QueueEntry>, deal: QueueEntry -> Event, e: QueueEntry) returns (j: nat)
    requires e in entries
    ensures j < |Deals(entries, deal)| && Deals(entries, deal)[j] == deal(e)
  {
    if entries[0] == e {
      j := 0;
    } else {
      j := PlaceOf(entries[1..], deal, e);
      j := j + 1;
    }
  }

  lemma InLog(log: seq<Event>, from: nat, entries: seq<QueueEntry>, deal: QueueEntry -> Event, e: QueueEntry)
    returns (i: nat)
    requires Contains(log, from, Deals(entries, deal)) && e in entries
    ensures from <= i < |log| && log[i] == deal(e)
  {
    var j := PlaceOf(entries, deal, e);
    i := from + j;
    assert log[i] == log[from..from + |Deals(entries, deal)|][j];
  }

  /** In particular each packet taken has its event in the log: that of dealing with it. */
  lemma EventOfTaken(c: Config, st: State, m: Moment, d: Addr, e: QueueEntry) returns (i: nat, table: Table)
    requires NO_ADDR !in LivePositions(c, st.table, m.now)
    requires d in st.addrs && !m.places(d).inSearch && m.places(d).hasPosition
    requires e in TakenFrom(WaitingFor(st.queue, m.now, d))
    ensures |st.log| <= i < |Checked(c, st, m).log| && TableOf(c, st, m, table) && e.header.dst == d
    ensures Checked(c, st, m).log[i] == Dealing(c, table, m, d)(e)
  {
    var from: nat;
    from, table := CheckLogDeals(c, st, m, d);
    TakenGoTo(st.queue, m.now, d);
    i := InLog(Checked(c, st, m).log, from, TakenFrom(WaitingFor(st.queue, m.now, d)), Dealing(c, table, m, d), e);
  }
}
