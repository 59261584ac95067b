/** What holds in every reachable state of a node, over every interleaving of arrivals, expiry, HELLO
    messages and timer firings. */
module NodeRuns {
  import opened Types
  import opened Geometry
  import opened Neighbors
  import opened Packets
  import opened Routing
  import opened PositionTable
  import opened RequestQueue
  import opened NodeModel

  // ---------- runs ----------

  datatype Happening = Happening(moment: Moment, action: Action)

  ghost function Run(c: Config, steps: seq<Happening>): State
    requires c.maxLen > 0
  {
    if steps == [] then INITIAL
    else
      var last := steps[|steps| - 1];
      Step(c, Run(c, steps[..|steps| - 1]), last.moment, last.action)
  }

  /** The clock never goes back, and arriving packets have the headers the protocol takes off. */
  ghost predicate Timely(steps: seq<Happening>) {
    && (forall i, j :: 0 <= i < j < |steps| ==> steps[i].moment.now <= steps[j].moment.now)
    && (forall h :: h in steps && h.action.Receive? ==> Readable(h.action.packet.bytes))
  }

  // ---------- no packet is stranded in the queue ----------

  /** Every queued packet's destination is on the address list. */
  ghost predicate AddressesCover(st: State) {
    forall e :: e in st.queue ==> e.header.dst in st.addrs
  }

  ghost predicate Inv(c: Config, st: State, now: Time) {
    && AddressesCover(st)
    && (st.timer.Some? <==> st.addrs != [])
    && (st.timer.Some? ==> st.timer.value <= now + CHECK_DELAY)
    && Ordered(st.queue, c.maxLen, c.timeout, now)
    && (forall e :: e in st.queue ==> Readable(e.packet.bytes))
  }

  lemma {:induction false} UniqueMembers(s: seq<Addr>)
    ensures forall a :: a in Unique(s) <==> a in s
  {
    if |s| > 1 {
      var n := |s| - 1;
      UniqueMembers(s[..n]);
      assert forall a :: a in s <==> a in s[..n] || a == s[n];
      assert s[n - 1] in s[..n];
    }
  }

  lemma {:induction false} RemoveMembers(s: seq<Addr>, gone: Addr)
    ensures forall a :: a in Remove(s, gone) <==> a in s && a != gone
  {
    if s != [] {
      var n := |s| - 1;
      RemoveMembers(s[..n], gone);
      assert forall a :: a in s <==> a in s[..n] || a == s[n];
    }
  }

  lemma {:induction false} RemoveAllMembers(s: seq<Addr>, gone: seq<Addr>)
    ensures forall a :: a in RemoveAll(s, gone) <==> a in s && a !in gone
  {
    if gone != [] {
      var n := |gone| - 1;
      RemoveAllMembers(s, gone[..n]);
      RemoveMembers(RemoveAll(s, gone[..n]), gone[n]);
      assert forall a :: a in gone <==> a in gone[..n] || a == gone[n];
    }
  }

  /** Entries present after an operation were there before, apart from the one it added. */
  lemma EnqueuedMembers(q: seq<QueueEntry>, maxLen: nat, timeout: Time, now: Time, e: QueueEntry)
    requires maxLen > 0
    ensures forall f :: f in Enqueued(q, maxLen, timeout, now, e).queue ==> f in q || f == e.(expire := timeout + now)
  {
    SelectMembers(q, InTime(now));
  }

  lemma DroppedMembers(q: seq<QueueEntry>, now: Time, dst: Addr)
    ensures forall f :: f in DroppedToward(q, now, dst).queue ==> f in q && f.header.dst != dst
  {
    SelectMembers(q, InTime(now));
    SelectMembers(Fresh(q, now), Elsewhere(dst));
  }

  /** The sending loop only takes entries out, keeps the rest in order, and when it runs to its end
      leaves none for the destination. */
  lemma {:induction false} PumpOnlyRemoves(q: seq<QueueEntry>, now: Time, dst: Addr, deal: QueueEntry -> Event,
                                           maxLen: nat, timeout: Time)
    ensures var p := Pump(q, now, dst, deal);
            && (forall e :: e in p.queue ==> e in q)
            && (p.done ==> forall e :: e in p.queue ==> e.header.dst != dst)
            && (Ordered(q, maxLen, timeout, now) ==> Ordered(p.queue, maxLen, timeout, now))
    decreases |Fresh(q, now)|, |q|
  {
    var r := Dequeued(q, now, dst);
    SelectMembers(q, InTime(now));
    if Ordered(q, maxLen, timeout, now) {
      DequeueKeepsOrdered(q, maxLen, timeout, now, dst);
    }
    if r.result.Some? && IsData(r.result.value.packet.bytes) {
      DequeueShrinks(q, now, dst);
      PumpOnlyRemoves(r.queue, now, dst, deal, maxLen, timeout);
    }
  }

  lemma SendOnlyRemoves(c: Config, st: State, m: Moment, dst: Addr)
    ensures var (after, done) := SentFromQueue(c, st, m, dst);
            && after.addrs == st.addrs && after.timer == st.timer
            && (forall e :: e in after.queue ==> e in st.queue)
            && (done ==> forall e :: e in after.queue ==> e.header.dst != dst)
            && (Ordered(st.queue, c.maxLen, c.timeout, m.now) ==> Ordered(after.queue, c.maxLen, c.timeout, m.now))
  {
    PumpOnlyRemoves(st.queue, m.now, dst, Dealing(c, st.table, m, dst), c.maxLen, c.timeout);
    DroppedMembers(st.queue, m.now, dst);
    if Ordered(st.queue, c.maxLen, c.timeout, m.now) {
      DequeueKeepsOrdered(st.queue, c.maxLen, c.timeout, m.now, dst);
    }
  }

  /** While CheckQueue goes through its list, the addresses it marks for removal have no packet left. */
  lemma {:induction false} SweepOnlyRemoves(c: Config, st: State, m: Moment, k: nat)
    requires k <= |st.addrs| && Ordered(st.queue, c.maxLen, c.timeout, m.now)
    ensures var (swept, toRemove) := CheckedUpTo(c, st, m, k);
            && swept.addrs == st.addrs
            && (forall e :: e in swept.queue ==> e in st.queue && e.header.dst !in toRemove)
            && Ordered(swept.queue, c.maxLen, c.timeout, m.now)
  {
    if k > 0 {
      SweepOnlyRemoves(c, st, m, k - 1);
      SendOnlyRemoves(c, CheckedUpTo(c, st, m, k - 1).0, m, st.addrs[k - 1]);
    }
  }

  lemma CheckKeepsInv(c: Config, st: State, m: Moment)
    requires Inv(c, st, m.now)
    ensures Inv(c, Checked(c, st, m), m.now)
  {
    SweepOnlyRemoves(c, st, m, |st.addrs|);
    var (swept, toRemove) := CheckedUpTo(c, st, m, |st.addrs|);
    RemoveAllMembers(st.addrs, toRemove);
  }

  lemma DeferKeepsInv(c: Config, st: State, now: Time, packet: Packet, header: IpHeader)
    requires Inv(c, st, now) && c.maxLen > 0 && Readable(packet.bytes)
    ensures Inv(c, Deferred(c, st, now, packet, header), now)
  {
    var live := Fresh(st.queue, now);
    var e := QueueEntry(packet, header, now + now);
    SelectKeepsOrdered(st.queue, InTime(now), c.maxLen, c.timeout, now);
    EnqueueKeepsOrdered(live, c.maxLen, c.timeout, now, e);
    EnqueuedMembers(live, c.maxLen, c.timeout, now, e);
    SelectMembers(st.queue, InTime(now));
    UniqueMembers([header.dst] + st.addrs);
    assert header.dst in Unique([header.dst] + st.addrs);
    if live != [] {
      assert live[0] in live && live[0].header.dst in st.addrs;
    }
  }

  lemma ActKeepsInv(c: Config, st: State, now: Time, packet: Packet, header: IpHeader, payload: seq<U8>, d: Decision)
    requires Inv(c, st, now) && c.maxLen > 0
    ensures Inv(c, Acted(c, st, now, packet, header, payload, d), now)
  {
    FrameRoundTrip(d.hdr, payload);
    DeferKeepsInv(c, st, now, packet.(bytes := Frame(d.hdr, payload)), header);
  }

  lemma ForwardKeepsInv(c: Config, st: State, m: Moment, packet: Packet, header: IpHeader)
    requires Inv(c, st, m.now) && c.maxLen > 0
    ensures Inv(c, ForwardedOn(c, st, m, packet, header).0, m.now)
  {
    var purged := st.(table := Live(st.table, c.lifeTime, m.now));
    match Parse(packet.bytes)
    case UnknownType =>
    case Data(hdr, payload) =>
      var d := Forward(c.graph, Positions(purged.table), m.here, header.dst, hdr, m.places(header.dst).fix);
      ActKeepsInv(c, purged, m.now, packet, header, payload, d);
  }

  lemma StepKeepsInv(c: Config, st: State, m: Moment, a: Action)
    requires Inv(c, st, m.now) && c.maxLen > 0
    requires a.Receive? ==> Readable(a.packet.bytes)
    ensures Inv(c, Step(c, st, m, a), m.now)
  {
    match a
    case Receive(packet, header) =>
      DeferKeepsInv(c, st, m.now, packet.(tagged := false), header);
      ForwardKeepsInv(c, st, m, packet, header);
    case TimerFires =>
      CheckKeepsInv(c, st, m);
    case Hear(_, _) =>
    case Originate(_) =>
  }

  /** In every reachable state each queued packet's destination is listed, the timer is armed exactly
      when an address is listed, for at most half a second ahead, and the queue is sorted by expiry, free
      of duplicates and bounded. */
  lemma {:induction false} InvAlways(c: Config, steps: seq<Happening>, now: Time)
    requires c.maxLen > 0 && Timely(steps)
    requires forall h :: h in steps ==> h.moment.now <= now
    ensures Inv(c, Run(c, steps), now)
  {
    if steps != [] {
      var n := |steps| - 1;
      var last := steps[n];
      assert forall h :: h in steps[..n] ==> h in steps;
      forall h | h in steps[..n]
        ensures h.moment.now <= last.moment.now
      {
        var i :| 0 <= i < n && steps[i] == h;
      }
      InvAlways(c, steps[..n], last.moment.now);
      StepKeepsInv(c, Run(c, steps[..n]), last.moment, last.action);
      assert last in steps;
      ClockKeepsOrdered(Run(c, steps).queue, c.maxLen, c.timeout, last.moment.now, now);
    }
  }

  function LastTime(steps: seq<Happening>): Time {
    if steps == [] then 0 else steps[|steps| - 1].moment.now
  }

  /** So no packet is stranded: while anything is queued, the next CheckQueue is scheduled, never more than
      half a second ahead, and will look for its destination. */
  lemma NoPacketIsStranded(c: Config, steps: seq<Happening>)
    requires c.maxLen > 0 && Timely(steps)
    ensures var st := Run(c, steps);
            forall e :: e in st.queue ==>
              st.timer.Some? && st.timer.value <= LastTime(steps) + CHECK_DELAY && e.header.dst in st.addrs
  {
    InvAlways(c, steps, LastTime(steps));
  }

  // ---------- every packet is accounted for ----------

  /** What identifies a packet at a node whatever headers it wears: its identity, its destination and
      its payload. */
  datatype Ticket = Ticket(uid: nat, dst: Addr, payload: seq<U8>)

  function Payload(bytes: seq<U8>): seq<U8> {
    match Parse(bytes)
    case Data(_, payload) => payload
    case UnknownType => bytes
  }

  function TicketOf(packet: Packet, header: IpHeader): Ticket {
    Ticket(packet.uid, header.dst, Payload(packet.bytes))
  }

  function EntryTicket(e: QueueEntry): Ticket {
    TicketOf(e.packet, e.header)
  }

  function EventTicket(ev: Event): Ticket {
    match ev
    case Forwarded(_, header, packet) => TicketOf(packet, header)
    case Delivered(header, uid, payload) => Ticket(uid, header.dst, payload)
    case Reported(entry) => EntryTicket(entry)
    case Duplicate(header, packet) => TicketOf(packet, header)
    case Stranded(header, packet) => TicketOf(packet, header)
    case Discarded(header, packet) => TicketOf(packet, header)
    case Refused(header, packet) => TicketOf(packet, header)
  }

  function Queued(q: seq<QueueEntry>, t: Ticket): nat {
    if q == [] then 0 else Queued(q[..|q| - 1], t) + if EntryTicket(q[|q| - 1]) == t then 1 else 0
  }

  function Logged(log: seq<Event>, t: Ticket): nat {
    if log == [] then 0 else Logged(log[..|log| - 1], t) + if EventTicket(log[|log| - 1]) == t then 1 else 0
  }

  /** How often the packet arrived during the run. */
  ghost function Arrived(steps: seq<Happening>, t: Ticket): nat {
    if steps == [] then 0
    else
      Arrived(steps[..|steps| - 1], t)
      + match steps[|steps| - 1].action
        case Receive(packet, header) => if TicketOf(packet, header) == t then 1 else 0
        case _ => 0
  }

  /** How often the node has the packet in hand or has disposed of it. */
  function Accounted(st: State, t: Ticket): nat {
    Logged(st.log, t) + Queued(st.queue, t)
  }

  lemma {:induction false} QueuedConcat(p: seq<QueueEntry>, q: seq<QueueEntry>, t: Ticket)
    ensures Queued(p + q, t) == Queued(p, t) + Queued(q, t)
  {
    if q == [] {
      assert p + q == p;
    } else {
      var n := |q| - 1;
      QueuedConcat(p, q[..n], t);
      assert (p + q)[..|p + q| - 1] == p + q[..n];
    }
  }

  lemma {:induction false} LoggedConcat(p: seq<Event>, q: seq<Event>, t: Ticket)
    ensures Logged(p + q, t) == Logged(p, t) + Logged(q, t)
  {
    if q == [] {
      assert p + q == p;
    } else {
      var n := |q| - 1;
      LoggedConcat(p, q[..n], t);
      assert (p + q)[..|p + q| - 1] == p + q[..n];
    }
  }

  lemma {:induction false} ReportsLog(entries: seq<QueueEntry>, t: Ticket)
    ensures Logged(Reports(entries), t) == Queued(entries, t)
  {
    if entries != [] {
      var n := |entries| - 1;
      ReportsLog(entries[..n], t);
      assert Reports(entries)[..n] == Reports(entries[..n]);
    }
  }

  lemma {:induction false} SelectBalances(q: seq<QueueEntry>, keep: QueueEntry -> bool, drop: QueueEntry -> bool,
                                          t: Ticket)
    requires forall e :: drop(e) <==> !keep(e)
    ensures Queued(q, t) == Queued(Select(q, keep), t) + Queued(Select(q, drop), t)
  {
    if q != [] {
      var n := |q| - 1;
      SelectBalances(q[..n], keep, drop, t);
      QueuedConcat(Select(q[..n], keep), [q[n]], t);
      QueuedConcat(Select(q[..n], drop), [q[n]], t);
    }
  }

  lemma EnqueueBalances(q: seq<QueueEntry>, maxLen: nat, timeout: Time, now: Time, e: QueueEntry, t: Ticket)
    requires maxLen > 0
    ensures var r := Enqueued(q, maxLen, timeout, now, e);
            Queued(r.queue, t) + Queued(r.errors, t)
            == Queued(q, t) + if r.result && EntryTicket(e) == t then 1 else 0
  {
    var live, gone := Fresh(q, now), Stale(q, now);
    var entry := e.(expire := timeout + now);
    SelectBalances(q, InTime(now), Outdated(now), t);
    QueuedConcat(live, [entry], t);
    if |live| == maxLen {
      EvictionBalances(live, entry, gone, t);
    }
  }

  lemma EvictionBalances(live: seq<QueueEntry>, entry: QueueEntry, gone: seq<QueueEntry>, t: Ticket)
    requires live != []
    ensures Queued(live[1..] + [entry], t) + Queued(gone + [live[0]], t)
            == Queued(live, t) + Queued(gone, t) + if EntryTicket(entry) == t then 1 else 0
  {
    QueuedConcat([live[0]], live[1..], t);
    QueuedConcat(live[1..], [entry], t);
    QueuedConcat(gone, [live[0]], t);
    assert live == [live[0]] + live[1..];
  }

  lemma DequeueBalances(q: seq<QueueEntry>, now: Time, dst: Addr, t: Ticket)
    ensures var r := Dequeued(q, now, dst);
            Queued(r.queue, t) + Queued(r.errors, t)
            + (if r.result.Some? && EntryTicket(r.result.value) == t then 1 else 0) == Queued(q, t)
  {
    var live := Fresh(q, now);
    var i := FirstToward(live, dst);
    SelectBalances(q, InTime(now), Outdated(now), t);
    var r := Dequeued(q, now, dst);
    assert r.errors == Stale(q, now);
    if i < |live| {
      TakingOneBalances(live, i, t);
      assert r.queue == live[..i] + live[i + 1..] && r.result == Some(live[i]);
    } else {
      assert r.queue == live && r.result == None;
    }
  }

  lemma TakingOneBalances(live: seq<QueueEntry>, i: nat, t: Ticket)
    requires i < |live|
    ensures Queued(live, t) == Queued(live[..i] + live[i + 1..], t) + if EntryTicket(live[i]) == t then 1 else 0
  {
    assert live == live[..i] + [live[i]] + live[i + 1..];
    QueuedAround(live[..i], live[i], live[i + 1..], t);
  }

  lemma QueuedAround(front: seq<QueueEntry>, e: QueueEntry, back: seq<QueueEntry>, t: Ticket)
    ensures Queued(front + [e] + back, t) == Queued(front + back, t) + if EntryTicket(e) == t then 1 else 0
  {
    QueuedConcat(front + [e], back, t);
    QueuedConcat(front, [e], t);
    QueuedConcat(front, back, t);
  }

  lemma DropBalances(q: seq<QueueEntry>, now: Time, dst: Addr, t: Ticket)
    ensures var r := DroppedToward(q, now, dst);
            Queued(r.queue, t) + Queued(r.errors, t) == Queued(q, t)
  {
    var live := Fresh(q, now);
    SelectBalances(q, InTime(now), Outdated(now), t);
    SelectBalances(live, Elsewhere(dst), Toward(dst), t);
    QueuedConcat(Stale(q, now), Select(live, Toward(dst)), t);
  }

  /** However a dequeued packet is dealt with, it is the same packet. */
  ghost predicate KeepsTicket(deal: QueueEntry -> Event) {
    forall e :: EventTicket(deal(e)) == EntryTicket(e)
  }

  lemma {:induction false} PumpBalances(q: seq<QueueEntry>, now: Time, dst: Addr, deal: QueueEntry -> Event, t: Ticket)
    requires KeepsTicket(deal)
    ensures var p := Pump(q, now, dst, deal);
            Logged(p.events, t) + Queued(p.queue, t) == Queued(q, t)
    decreases |Fresh(q, now)|, |q|
  {
    var r := Dequeued(q, now, dst);
    SelectMembers(q, InTime(now));
    DequeueBalances(q, now, dst, t);
    ReportsLog(r.errors, t);
    if r.result.Some? {
      var e := r.result.value;
      LoggedConcat(Reports(r.errors), [deal(e)], t);
      if IsData(e.packet.bytes) {
        DequeueShrinks(q, now, dst);
        PumpBalances(r.queue, now, dst, deal, t);
        LoggedConcat(Reports(r.errors) + [deal(e)], Pump(r.queue, now, dst, deal).events, t);
      }
    }
  }

  lemma FrameKeepsTicket(packet: Packet, header: IpHeader, other: IpHeader, hdr: PositionHeader, payload: seq<U8>)
    requires Parse(packet.bytes).Data? && Parse(packet.bytes).payload == payload && header.dst == other.dst
    ensures TicketOf(packet.(bytes := Frame(hdr, payload)), other) == TicketOf(packet, header)
  {
    FrameRoundTrip(hdr, payload);
  }

  lemma GreedyKeepsTicket(address: Addr, m: Moment, nextHop: Addr, e: QueueEntry)
    ensures EventTicket(SentGreedily(address, m, nextHop, e)) == EntryTicket(e)
  {
    match Parse(e.packet.bytes)
    case UnknownType =>
    case Data(hdr, payload) =>
      var newest := Newest(hdr, m.places(e.header.dst).fix);
      var onward := PositionHeader(newest.pos, newest.updated, m.here, 0, m.here);
      FrameKeepsTicket(e.packet, e.header, e.header, onward, payload);
      FrameKeepsTicket(e.packet, e.header, e.header.(src := address), onward, payload);
  }

  lemma RecoveryKeepsTicket(graph: U8, m: Moment, view: map<Addr, Point>, e: QueueEntry)
    ensures EventTicket(SentInRecovery(graph, m, view, e)) == EntryTicket(e)
  {
    match Parse(e.packet.bytes)
    case UnknownType =>
    case Data(hdr, payload) =>
      var d := Recover(graph, view, m.here, PositionHeader(hdr.dst, hdr.updated, m.here, 1, hdr.dst));
      FrameKeepsTicket(e.packet, e.header, e.header, d.hdr, payload);
  }

  /** The table knows nothing better for a packet to dst than to lose it: dst is not in it, no live
      neighbour is closer to the service's position than this node, and none survives the planarisation. */
  ghost predicate Lost(c: Config, table: Table, m: Moment, dst: Addr) {
    var view := LivePositions(c, table, m.now);
    && dst !in table
    && (forall a :: a in view ==> Dist2(m.here, m.places(dst).fix.pos) <= Dist2(view[a], m.places(dst).fix.pos))
    && PlanarNeighbors(c.graph, Listed(view), m.here) == []
  }

  /** What becomes of a dequeued packet, exactly: discarded if its type is unknown; otherwise stranded if the
      table offers neither a greedy nor a recovery hop, and handed to the unicast callback if it does. */
  lemma DequeuedFate(c: Config, table: Table, m: Moment, dst: Addr, e: QueueEntry)
    requires NO_ADDR !in LivePositions(c, table, m.now)
    ensures var ev := Dealing(c, table, m, dst)(e);
            && (ev.Discarded? <==> !IsData(e.packet.bytes))
            && (ev.Stranded? <==> IsData(e.packet.bytes) && Lost(c, table, m, dst))
            && (ev.Forwarded? <==> IsData(e.packet.bytes) && !Lost(c, table, m, dst))
  {
    var view := LivePositions(c, table, m.now);
    BestNeighborIsArgmin(view, m.places(dst).fix.pos, m.here);
    if IsData(e.packet.bytes) {
      var hdr := Parse(e.packet.bytes).hdr;
      RecoverGoesToNeighbor(c.graph, view, m.here, PositionHeader(hdr.dst, hdr.updated, m.here, 1, hdr.dst));
    }
  }

  lemma DealingKeepsTicket(c: Config, table: Table, m: Moment, dst: Addr)
    ensures KeepsTicket(Dealing(c, table, m, dst))
  {
    var view := LivePositions(c, table, m.now);
    var nextHop := BestNeighborOf(Listed(view), m.places(dst).fix.pos, m.here);
    forall e
      ensures EventTicket(Dealing(c, table, m, dst)(e)) == EntryTicket(e)
    {
      GreedyKeepsTicket(c.address, m, dst, e);
      GreedyKeepsTicket(c.address, m, nextHop, e);
      RecoveryKeepsTicket(c.graph, m, view, e);
    }
  }

  lemma SendBalances(c: Config, st: State, m: Moment, dst: Addr, t: Ticket)
    ensures Accounted(SentFromQueue(c, st, m, dst).0, t) == Accounted(st, t)
  {
    var deal := Dealing(c, st.table, m, dst);
    DealingKeepsTicket(c, st.table, m, dst);
    PumpBalances(st.queue, m.now, dst, deal, t);
    LoggedConcat(st.log, Pump(st.queue, m.now, dst, deal).events, t);
    var r := DroppedToward(st.queue, m.now, dst);
    DropBalances(st.queue, m.now, dst, t);
    ReportsLog(r.errors, t);
    LoggedConcat(st.log, Reports(r.errors), t);
  }

  lemma {:induction false} SweepBalances(c: Config, st: State, m: Moment, k: nat, t: Ticket)
    requires k <= |st.addrs|
    ensures Accounted(CheckedUpTo(c, st, m, k).0, t) == Accounted(st, t)
  {
    if k > 0 {
      SweepBalances(c, st, m, k - 1, t);
      SendBalances(c, CheckedUpTo(c, st, m, k - 1).0, m, st.addrs[k - 1], t);
    }
  }

  lemma DeferBalances(c: Config, st: State, now: Time, packet: Packet, header: IpHeader, t: Ticket)
    requires c.maxLen > 0
    ensures Accounted(Deferred(c, st, now, packet, header), t)
            == Accounted(st, t) + if TicketOf(packet, header) == t then 1 else 0
  {
    var live, gone := Fresh(st.queue, now), Stale(st.queue, now);
    var e := QueueEntry(packet, header, now + now);
    var r := Enqueued(live, c.maxLen, c.timeout, now, e);
    SelectBalances(st.queue, InTime(now), Outdated(now), t);
    EnqueueBalances(live, c.maxLen, c.timeout, now, e, t);
    ReportsLog(gone, t);
    ReportsLog(r.errors, t);
    LoggedConcat(st.log, Reports(gone), t);
    LoggedConcat(st.log + Reports(gone), Reports(r.errors), t);
    LoggedConcat(st.log + Reports(gone) + Reports(r.errors), if r.result then [] else [Duplicate(header, packet)], t);
  }

  lemma OneMoreEvent(log: seq<Event>, ev: Event, t: Ticket)
    ensures Logged(log + [ev], t) == Logged(log, t) + if EventTicket(ev) == t then 1 else 0
  {
    LoggedConcat(log, [ev], t);
  }

  lemma ActBalances(c: Config, st: State, now: Time, packet: Packet, header: IpHeader, payload: seq<U8>, d: Decision,
                    t: Ticket)
    requires c.maxLen > 0 && Parse(packet.bytes).Data? && Parse(packet.bytes).payload == payload
    ensures Accounted(Acted(c, st, now, packet, header, payload, d), t)
            == Accounted(st, t) + if TicketOf(packet, header) == t then 1 else 0
  {
    var framed := packet.(bytes := Frame(d.hdr, payload));
    FrameKeepsTicket(packet, header, header, d.hdr, payload);
    match d
    case Transmit(nextHop, _) =>
      OneMoreEvent(st.log, Forwarded(nextHop, header, framed), t);
    case Defer(_) =>
      DeferBalances(c, st, now, framed, header, t);
  }

  lemma ForwardBalances(c: Config, st: State, m: Moment, packet: Packet, header: IpHeader, t: Ticket)
    requires c.maxLen > 0
    ensures Accounted(ForwardedOn(c, st, m, packet, header).0, t)
            == Accounted(st, t) + if TicketOf(packet, header) == t then 1 else 0
  {
    var purged := st.(table := Live(st.table, c.lifeTime, m.now));
    match Parse(packet.bytes)
    case UnknownType =>
      OneMoreEvent(st.log, Refused(header, packet), t);
    case Data(hdr, payload) =>
      var d := Forward(c.graph, Positions(purged.table), m.here, header.dst, hdr, m.places(header.dst).fix);
      ActBalances(c, purged, m.now, packet, header, payload, d, t);
  }

  lemma ReceiveBalances(c: Config, st: State, m: Moment, packet: Packet, header: IpHeader, t: Ticket)
    requires c.maxLen > 0
    ensures Accounted(Received(c, st, m, packet, header).0, t)
            == Accounted(st, t) + if TicketOf(packet, header) == t then 1 else 0
  {
    if c.own == {} {
      OneMoreEvent(st.log, Refused(header, packet), t);
    } else if packet.tagged && header.src in c.own {
      DeferBalances(c, st, m.now, packet.(tagged := false), header, t);
    } else if header.dst in c.local {
      OneMoreEvent(st.log, Refused(header, packet), t);
      OneMoreEvent(st.log, Delivered(header, packet.uid, Payload(packet.bytes)), t);
    } else {
      ForwardBalances(c, st, m, packet, header, t);
    }
  }

  /** Node-level conservation: over every run, every packet is, exactly as often as it arrived and with
      its payload unchanged, still queued or in an event of the log: forwarded, delivered, reported,
      refused as a duplicate, stranded in recovery, discarded or refused. */
  lemma {:induction false} EveryPacketIsAccountedFor(c: Config, steps: seq<Happening>, t: Ticket)
    requires c.maxLen > 0
    ensures Accounted(Run(c, steps), t) == Arrived(steps, t)
  {
    if steps != [] {
      var n := |steps| - 1;
      EveryPacketIsAccountedFor(c, steps[..n], t);
      var st, m := Run(c, steps[..n]), steps[n].moment;
      match steps[n].action
      case Receive(packet, header) =>
        ReceiveBalances(c, st, m, packet, header, t);
      case TimerFires =>
        SweepBalances(c, st, m, |st.addrs|, t);
      case Hear(_, _) =>
      case Originate(_) =>
    }
  }
}
