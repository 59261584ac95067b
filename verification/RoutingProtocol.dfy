/** The protocol object of one node: its table, its queue of deferred packets, its address list and its
    timer, changed in place. Every method is shown to do what module NodeModel says. */
module RoutingProtocol {
  import opened Types
  import opened Geometry
  import opened Packets
  import opened Routing
  import opened PositionTable
  import opened RequestQueue
  import opened NodeModel

  /** A call of the down target: a packet's bytes and where it comes from, goes to and belongs to. */
  datatype DownCall = DownCall(bytes: seq<U8>, src: Addr, dst: Addr, protocol: U8)

  class Protocol {
    const neighbors: NeighborTable
    const queue: PacketQueue
    const address: Addr
    const own: set<Addr>
    const local: set<Addr>
    var queuedAddresses: seq<Addr>
    var checkQueueTimer: Option<Time>
    /** What has become of the packets so far: the callbacks made, in order, and the silent losses. */
    ghost var log: seq<Event>
    /** The new packets handed down to the IP layer so far. */
    ghost var handedDown: seq<DownCall>

    constructor (lifeTime: Time, graph: U8, maxLen: nat, timeout: Time,
                 address: Addr, own: set<Addr>, local: set<Addr>)
      ensures Current() == INITIAL && handedDown == []
      ensures Fixed() == Config(lifeTime, graph, maxLen, timeout, address, own, local)
      ensures fresh(neighbors) && fresh(queue)
    {
      this.neighbors := new NeighborTable(lifeTime, graph);
      this.queue := new PacketQueue(maxLen, timeout);
      this.address, this.own, this.local := address, own, local;
      queuedAddresses, checkQueueTimer := [], None;
      log, handedDown := [], [];
    }

    ghost function Current(): State
      reads this, neighbors, queue
    {
      State(neighbors.table, queue.queue, queuedAddresses, checkQueueTimer, log)
    }

    ghost function Fixed(): Config
      reads neighbors, queue
    {
      Config(neighbors.lifeTime, neighbors.graphType, queue.maxLen, queue.timeout, address, own, local)
    }

    /** Note the error callbacks that the queue has made since it had made so many. */
    ghost method NoteReports(before: seq<QueueEntry>)
      requires before <= queue.errors
      modifies this`log
      ensures log == old(log) + Reports(queue.errors[|before|..])
    {
      log := log + Reports(queue.errors[|before|..]);
    }

    method DeferredRouteOutput(packet: Packet, header: IpHeader, now: Time)
      requires queue.maxLen > 0
      modifies this`queuedAddresses, this`checkQueueTimer, this`log, queue`queue, queue`errors
      ensures Current() == Deferred(Fixed(), old(Current()), now, packet, header)
    {
      ghost var reported := queue.errors;
      var size := queue.GetSize(now);
      NoteReports(reported);
      if size == 0 {
        checkQueueTimer := None;
        checkQueueTimer := Some(now + CHECK_DELAY);
      }
      reported := queue.errors;
      var accepted := queue.Enqueue(QueueEntry(packet, header, now + now), now);
      NoteReports(reported);
      queuedAddresses := Unique([header.dst] + queuedAddresses);
      if !accepted {
        log := log + [Duplicate(header, packet)];
      }
    }

    /** Returns true when no planar neighbour was found, with the packet as it then is; otherwise the
        packet has been handed to the unicast callback. */
    method RecoveryMode(packet: Packet, header: IpHeader, m: Moment) returns (unsent: bool, p: Packet)
      requires IsData(packet.bytes)
      modifies this`log, neighbors`table
      ensures neighbors.table == AfterBestAngle(Fixed(), old(neighbors.table), m.now)
      ensures var parsed := Parse(packet.bytes);
              var view := LivePositions(Fixed(), old(neighbors.table), m.now);
              var d := Recover(neighbors.graphType, view, m.here, parsed.hdr);
              && unsent == d.Defer?
              && p == packet.(bytes := Frame(d.hdr, parsed.payload))
              && log == old(log) + if unsent then [] else [Forwarded(d.nextHop, header, p)]
    {
      var parsed := Parse(packet.bytes);
      var hdr := parsed.hdr;
      var posHeader := PositionHeader(hdr.dst, hdr.updated, hdr.rec, 1, m.here);
      p := packet.(bytes := Frame(posHeader, parsed.payload));
      var nextHop := neighbors.BestAngle(hdr.last, m.here, m.now);
      if nextHop == NO_ADDR {
        return true, p;
      }
      log := log + [Forwarded(nextHop, header, p)];
      return false, p;
    }

    /** Recovery for a packet in hand, deferring it if no neighbour is found; the table is purged already. */
    method RecoverOrDefer(packet: Packet, header: IpHeader, hdr: PositionHeader, payload: seq<U8>, m: Moment)
      requires queue.maxLen > 0
      requires neighbors.table == Live(neighbors.table, neighbors.lifeTime, m.now)
      modifies this`queuedAddresses, this`checkQueueTimer, this`log, queue`queue, queue`errors, neighbors`table
      ensures Current() == Acted(Fixed(), old(Current()), m.now, packet, header, payload,
                                 Recover(neighbors.graphType, old(Positions(neighbors.table)), m.here, hdr))
    {
      FrameIsData(hdr, payload);
      PurgingTwice(Fixed(), neighbors.table, m.now);
      ghost var d := Recover(neighbors.graphType, Positions(neighbors.table), m.here, hdr);
      var unsent, p := RecoveryMode(packet.(bytes := Frame(hdr, payload)), header, m);
      assert p == packet.(bytes := Frame(d.hdr, payload)) && neighbors.table == old(neighbors.table);
      if unsent {
        assert Current() == old(Current());
        DeferredRouteOutput(p, header, m.now);
      }
    }

    method Forwarding(packet: Packet, header: IpHeader, m: Moment) returns (handled: bool)
      requires queue.maxLen > 0
      modifies this`queuedAddresses, this`checkQueueTimer, this`log, queue`queue, queue`errors, neighbors`table
      ensures (Current(), handled) == ForwardedOn(Fixed(), old(Current()), m, packet, header)
    {
      ghost var st := Current();
      neighbors.Purge(m.now);
      assert Current() == st.(table := Live(st.table, neighbors.lifeTime, m.now));
      PurgingTwice(Fixed(), st.table, m.now);
      if !IsData(packet.bytes) {
        log := log + [Refused(header, packet)];
        return false;
      }
      var parsed := Parse(packet.bytes);
      var hdr := LeaveRecovery(parsed.hdr, m.here);
      ForwardingDecides(Fixed(), st, m, packet, header, hdr);
      ForwardData(packet, header, hdr, parsed.payload, m);
      return true;
    }

    /** The header of a packet in recovery, with the flag cleared at a node closer to the destination than the
        one where recovery began. */
    method LeaveRecovery(arrived: PositionHeader, here: Point) returns (hdr: PositionHeader)
      ensures hdr == if LeavesRecovery(here, arrived) then arrived.(inRec := 0) else arrived
    {
      hdr := arrived;
      if hdr.inRec == 1 && SquaredDistance(here, hdr.dst) < SquaredDistance(hdr.rec, hdr.dst) {
        hdr := hdr.(inRec := 0);
      }
    }

    /** Forwarding, once the table is purged and the packet has left recovery where it may. */
    method ForwardData(packet: Packet, header: IpHeader, hdr: PositionHeader, payload: seq<U8>, m: Moment)
      requires queue.maxLen > 0
      requires neighbors.table == Live(neighbors.table, neighbors.lifeTime, m.now)
      modifies this`queuedAddresses, this`checkQueueTimer, this`log, queue`queue, queue`errors, neighbors`table
      ensures var d := if hdr.inRec != 0 then Recover(neighbors.graphType, old(Positions(neighbors.table)), m.here, hdr)
                       else Afresh(neighbors.graphType, old(Positions(neighbors.table)), m.here, header.dst, hdr,
                                   m.places(header.dst).fix);
              Current() == Acted(Fixed(), old(Current()), m.now, packet, header, payload, d)
    {
      if hdr.inRec != 0 {
        RecoverOrDefer(packet, header, hdr, payload, m);
      } else {
        ForwardAfresh(packet, header, hdr, payload, m);
      }
    }

    /** Forwarding, outside recovery: greedily, or by entering it. */
    method ForwardAfresh(packet: Packet, header: IpHeader, hdr: PositionHeader, payload: seq<U8>, m: Moment)
      requires queue.maxLen > 0
      requires neighbors.table == Live(neighbors.table, neighbors.lifeTime, m.now)
      modifies this`queuedAddresses, this`checkQueueTimer, this`log, queue`queue, queue`errors, neighbors`table
      ensures Current() == Acted(Fixed(), old(Current()), m.now, packet, header, payload,
                                 Afresh(neighbors.graphType, old(Positions(neighbors.table)), m.here, header.dst, hdr,
                                        m.places(header.dst).fix))
    {
      var dst := header.dst;
      PurgingTwice(Fixed(), neighbors.table, m.now);
      var newest := Newest(hdr, m.places(dst).fix);
      var nextHop;
      var known := neighbors.IsNeighbor(dst);
      if known {
        nextHop := dst;
      } else {
        nextHop := neighbors.BestNeighbor(newest.pos, m.here, m.now);
      }
      if nextHop != NO_ADDR {
        var posHeader := PositionHeader(newest.pos, newest.updated, ORIGIN, 0, m.here);
        log := log + [Forwarded(nextHop, header, packet.(bytes := Frame(posHeader, payload)))];
      } else {
        RecoverOrDefer(packet, header, hdr.(inRec := 1, rec := m.here, last := newest.pos), payload, m);
      }
    }

    method RouteInput(packet: Packet, header: IpHeader, m: Moment) returns (handled: bool)
      requires queue.maxLen > 0 && Readable(packet.bytes)
      modifies this`queuedAddresses, this`checkQueueTimer, this`log, queue`queue, queue`errors, neighbors`table
      ensures (Current(), handled) == Received(Fixed(), old(Current()), m, packet, header)
    {
      if own == {} {
        log := log + [Refused(header, packet)];
        return false;
      }
      if packet.tagged && header.src in own {
        DeferredRouteOutput(packet.(tagged := false), header, m.now);
        return true;
      }
      if header.dst in local {
        if !IsData(packet.bytes) {
          log := log + [Refused(header, packet)];
          return false;
        }
        log := log + [Delivered(header, packet.uid, Parse(packet.bytes).payload)];
        return true;
      }
      handled := Forwarding(packet, header, m);
    }

    /** A HELLO: remember where its sender is. */
    method RecvGpsr(sender: Addr, hello: HelloHeader, m: Moment)
      requires queue.maxLen > 0
      modifies neighbors`table
      ensures Current() == Step(Fixed(), old(Current()), m, Hear(sender, hello.origin))
    {
      neighbors.AddEntry(sender, hello.origin, m.now);
    }

    /** Sending what waits for dst; true when dst is done with. */
    method SendPacketFromQueue(dst: Addr, m: Moment) returns (done: bool)
      modifies this`log, queue`queue, queue`errors, neighbors`table
      ensures (Current(), done) == SentFromQueue(Fixed(), old(Current()), m, dst)
    {
      var place := m.places(dst);
      if place.inSearch {
        return false;
      }
      if !place.hasPosition {
        ghost var reported := queue.errors;
        queue.DropPacketWithDst(dst, m.now);
        NoteReports(reported);
        return true;
      }
      ghost var deal := Dealing(Fixed(), neighbors.table, m, dst);
      var nextHop;
      var known := neighbors.IsNeighbor(dst);
      if known {
        nextHop := dst;
      } else {
        nextHop := neighbors.BestNeighbor(place.fix.pos, m.here, m.now);
        if nextHop == NO_ADDR {
          PurgingTwice(Fixed(), old(neighbors.table), m.now);
          ghost var view := Positions(neighbors.table);
          forall e
            ensures DealsInRecovery(deal, neighbors.graphType, m, dst, view, e)
          {
          }
          done := SendInRecovery(dst, m, view, deal);
          return;
        }
      }
      forall e
        ensures DealsGreedily(deal, address, m, dst, nextHop, e)
      {
      }
      done := SendGreedily(dst, nextHop, m, deal);
    }

    /** Dequeue, noting the expired packets it reports. In the terms of the sending loop: where a loop
        over the whole queue remained to be run, there is now an entry in hand. */
    method TakeNext(dst: Addr, now: Time, ghost start: seq<Event>, ghost whole: Pumped, ghost before: seq<Event>,
                    ghost deal: QueueEntry -> Event)
      returns (entry: Option<QueueEntry>, ghost events: seq<Event>)
      requires log == start + before
      requires Remains(whole, before, queue.queue, now, dst, deal)
      modifies this`log, queue`queue, queue`errors
      ensures log == start + events
      ensures InHand(whole, events, entry, queue.queue, now, dst, deal)
      ensures |queue.queue| <= |old(queue.queue)|
      ensures entry.Some? ==> entry.value.header.dst == dst && |queue.queue| < |old(queue.queue)|
    {
      ghost var r := Dequeued(queue.queue, now, dst);
      AfterDequeue(queue.queue, now, dst);
      DequeueBringsInHand(whole, before, queue.queue, now, dst, deal);
      ghost var reported := queue.errors;
      entry := queue.Dequeue(dst, now);
      NoteReports(reported);
      events := before + Reports(r.errors);
      assert log == start + events;
    }

    /** The loop with a known next hop. */
    method SendGreedily(dst: Addr, nextHop: Addr, m: Moment, ghost deal: QueueEntry -> Event) returns (done: bool)
      requires forall e :: DealsGreedily(deal, address, m, dst, nextHop, e)
      modifies this`log, queue`queue, queue`errors
      ensures var p := Pump(old(queue.queue), m.now, dst, deal);
              queue.queue == p.queue && log == old(log) + p.events && done == p.done
    {
      ghost var whole, log0, before := Pump(queue.queue, m.now, dst, deal), log, [];
      var entry: Option<QueueEntry>;
      ghost var events;
      entry, events := TakeNext(dst, m.now, log0, whole, before, deal);
      done := true;
      while entry.Some?
        invariant log == log0 + events
        invariant done ==> InHand(whole, events, entry, queue.queue, m.now, dst, deal)
        invariant !done ==> entry.None? && whole == Pumped(queue.queue, events, false)
        invariant entry.Some? ==> entry.value.header.dst == dst
        decreases |queue.queue|, if entry.Some? then 1 else 0
      {
        done, entry, events := SendAndTakeNext(entry.value, nextHop, m, log0, whole, events, deal);
      }
    }

    /** Deal with the entry in hand, and take the next one unless this one was unusable. */
    method SendAndTakeNext(e: QueueEntry, nextHop: Addr, m: Moment, ghost start: seq<Event>, ghost whole: Pumped,
                           ghost before: seq<Event>, ghost deal: QueueEntry -> Event)
      returns (usable: bool, entry: Option<QueueEntry>, ghost events: seq<Event>)
      requires DealsGreedily(deal, address, m, e.header.dst, nextHop, e)
      requires log == start + before && InHand(whole, before, Some(e), queue.queue, m.now, e.header.dst, deal)
      modifies this`log, queue`queue, queue`errors
      ensures log == start + events
      ensures usable ==> InHand(whole, events, entry, queue.queue, m.now, e.header.dst, deal)
      ensures !usable ==> entry.None? && whole == Pumped(queue.queue, events, false)
      ensures |queue.queue| <= |old(queue.queue)|
      ensures entry.Some? ==> entry.value.header.dst == e.header.dst && |queue.queue| < |old(queue.queue)|
    {
      events := before + [deal(e)];
      usable := DealGreedily(e, nextHop, m, deal);
      assert log == start + events;
      entry := None;
      if usable {
        entry, events := TakeNext(e.header.dst, m.now, start, whole, events, deal);
      }
    }

    /** The body of that loop: put the newest position in the header and hand the packet on. */
    method DealGreedily(e: QueueEntry, nextHop: Addr, m: Moment, ghost deal: QueueEntry -> Event) returns (usable: bool)
      requires DealsGreedily(deal, address, m, e.header.dst, nextHop, e)
      modifies this`log
      ensures usable == IsData(e.packet.bytes) && log == old(log) + [deal(e)]
    {
      if !IsData(e.packet.bytes) {
        log := log + [Discarded(e.header, e.packet)];
        return false;
      }
      var parsed := Parse(e.packet.bytes);
      var newest := Newest(parsed.hdr, m.places(e.header.dst).fix);
      var posHeader := PositionHeader(newest.pos, newest.updated, m.here, 0, m.here);
      var p := e.packet.(bytes := Frame(posHeader, parsed.payload));
      var header := e.header;
      if header.src == NO_SOURCE {
        header := header.(src := address);
      }
      log := log + [Forwarded(nextHop, header, p)];
      return true;
    }

    /** The loop that starts recovery over. */
    method SendInRecovery(dst: Addr, m: Moment, ghost view: map<Addr, Point>, ghost deal: QueueEntry -> Event)
      returns (done: bool)
      requires neighbors.table == Live(neighbors.table, neighbors.lifeTime, m.now) && view == Positions(neighbors.table)
      requires forall e :: DealsInRecovery(deal, neighbors.graphType, m, dst, view, e)
      modifies this`log, queue`queue, queue`errors, neighbors`table
      ensures neighbors.table == old(neighbors.table)
      ensures var p := Pump(old(queue.queue), m.now, dst, deal);
              queue.queue == p.queue && log == old(log) + p.events && done == p.done
    {
      ghost var whole, log0, before := Pump(queue.queue, m.now, dst, deal), log, [];
      var entry: Option<QueueEntry>;
      ghost var events;
      entry, events := TakeNext(dst, m.now, log0, whole, before, deal);
      done := true;
      while entry.Some?
        invariant neighbors.table == old(neighbors.table)
        invariant log == log0 + events
        invariant done ==> InHand(whole, events, entry, queue.queue, m.now, dst, deal)
        invariant !done ==> entry.None? && whole == Pumped(queue.queue, events, false)
        invariant entry.Some? ==> entry.value.header.dst == dst
        decreases |queue.queue|, if entry.Some? then 1 else 0
      {
        done, entry, events := RecoverAndTakeNext(entry.value, m, view, log0, whole, events, deal);
      }
    }

    /** Deal with the entry in hand, and take the next one unless this one was unusable. */
    method RecoverAndTakeNext(e: QueueEntry, m: Moment, ghost view: map<Addr, Point>, ghost start: seq<Event>,
                              ghost whole: Pumped, ghost before: seq<Event>, ghost deal: QueueEntry -> Event)
      returns (usable: bool, entry: Option<QueueEntry>, ghost events: seq<Event>)
      requires neighbors.table == Live(neighbors.table, neighbors.lifeTime, m.now) && view == Positions(neighbors.table)
      requires DealsInRecovery(deal, neighbors.graphType, m, e.header.dst, view, e)
      requires log == start + before && InHand(whole, before, Some(e), queue.queue, m.now, e.header.dst, deal)
      modifies this`log, queue`queue, queue`errors, neighbors`table
      ensures neighbors.table == old(neighbors.table) && log == start + events
      ensures usable ==> InHand(whole, events, entry, queue.queue, m.now, e.header.dst, deal)
      ensures !usable ==> entry.None? && whole == Pumped(queue.queue, events, false)
      ensures |queue.queue| <= |old(queue.queue)|
      ensures entry.Some? ==> entry.value.header.dst == e.header.dst && |queue.queue| < |old(queue.queue)|
    {
      events := before + [deal(e)];
      usable := DealInRecovery(e, m, view, deal);
      assert log == start + events;
      entry := None;
      if usable {
        entry, events := TakeNext(e.header.dst, m.now, start, whole, events, deal);
      }
    }

    /** The body of that loop: the result of RecoveryMode is ignored, so a packet it could not send is
        lost without a callback. */
    method DealInRecovery(e: QueueEntry, m: Moment, ghost view: map<Addr, Point>, ghost deal: QueueEntry -> Event)
      returns (usable: bool)
      requires neighbors.table == Live(neighbors.table, neighbors.lifeTime, m.now) && view == Positions(neighbors.table)
      requires DealsInRecovery(deal, neighbors.graphType, m, e.header.dst, view, e)
      modifies this`log, neighbors`table
      ensures neighbors.table == old(neighbors.table)
      ensures usable == IsData(e.packet.bytes) && log == old(log) + [deal(e)]
    {
      if !IsData(e.packet.bytes) {
        log := log + [Discarded(e.header, e.packet)];
        return false;
      }
      PurgingTwice(Fixed(), neighbors.table, m.now);
      var parsed := Parse(e.packet.bytes);
      var posHeader := PositionHeader(parsed.hdr.dst, parsed.hdr.updated, m.here, 1, parsed.hdr.dst);
      FrameIsData(posHeader, parsed.payload);
      ghost var d := Recover(neighbors.graphType, view, m.here, posHeader);
      var unsent, p := RecoveryMode(e.packet.(bytes := Frame(posHeader, parsed.payload)), e.header, m);
      assert unsent == d.Defer? && p == e.packet.(bytes := Frame(d.hdr, parsed.payload));
      if unsent {
        log := log + [Stranded(e.header, p)];
      }
      return true;
    }

    /** The periodic attempt: try every listed address, take those done with off the list, and arm the
        timer again if any are left. */
    method CheckQueue(m: Moment)
      modifies this`queuedAddresses, this`checkQueueTimer, this`log, queue`queue, queue`errors, neighbors`table
      ensures Current() == Checked(Fixed(), old(Current()), m)
    {
      checkQueueTimer := None;
      ghost var start := old(Current());
      var toRemove: seq<Addr> := [];
      for i := 0 to |queuedAddresses|
        invariant queuedAddresses == start.addrs && checkQueueTimer == None
        invariant (Current().(timer := start.timer), toRemove) == CheckedUpTo(Fixed(), start, m, i)
      {
        var done := SendPacketFromQueue(queuedAddresses[i], m);
        if done {
          toRemove := [queuedAddresses[i]] + toRemove;
        }
      }
      StrikeOff(toRemove);
      if queuedAddresses != [] {
        checkQueueTimer := Some(m.now + CHECK_DELAY);
      }
    }

    /** Take the addresses that are done with off the list. */
    method StrikeOff(toRemove: seq<Addr>)
      modifies this`queuedAddresses
      ensures queuedAddresses == RemoveAll(old(queuedAddresses), toRemove)
    {
      for i := 0 to |toRemove|
        invariant queuedAddresses == RemoveAll(old(queuedAddresses), toRemove[..i])
      {
        assert toRemove[..i + 1][..i] == toRemove[..i];
        queuedAddresses := Remove(queuedAddresses, toRemove[i]);
      }
      assert toRemove[..|toRemove|] == toRemove;
    }

    /** A new packet goes down to the IP layer with a position header in front of its payload. The table is
        consulted although the hop it yields is not used. */
    method AddHeaders(payload: seq<U8>, src: Addr, dst: Addr, protocol: U8, broadcast: Addr, narrow: U64 -> U16,
                      m: Moment)
      requires queue.maxLen > 0
      modifies this`handedDown, neighbors`table
      ensures Current() == Step(Fixed(), old(Current()), m, Originate(dst))
      ensures handedDown
              == old(handedDown)
                 + [DownCall(Frame(FirstHeader(narrow, m, dst, broadcast), payload), src, dst, protocol)]
    {
      var known := neighbors.IsNeighbor(dst);
      if !known {
        var _ := neighbors.BestNeighbor(m.places(dst).fix.pos, m.here, m.now);
      }
      var positionX: U16, positionY: U16, hdrTime: U32 := 0, 0, 0;
      if dst != broadcast {
        positionX := narrow(m.places(dst).fix.pos.x);
        positionY := narrow(m.places(dst).fix.pos.y);
        hdrTime := m.places(dst).fix.updated;
      }
      var posHeader := PositionHeader(Point(positionX, positionY), hdrTime, ORIGIN, 0, m.here);
      handedDown := handedDown + [DownCall(Frame(posHeader, payload), src, dst, protocol)];
    }
  }

  // ---------- lemmas ----------

  lemma PurgingTwice(c: Config, table: Table, now: Time)
    ensures Live(Live(table, c.lifeTime, now), c.lifeTime, now) == Live(table, c.lifeTime, now)
    ensures AfterBestAngle(c, Live(table, c.lifeTime, now), now) == Live(table, c.lifeTime, now)
  {
  }

  /** Forwarding acts on the decision to go on recovering, or to decide afresh with the flag cleared if the
      packet leaves recovery. */
  lemma ForwardingDecides(c: Config, st: State, m: Moment, packet: Packet, header: IpHeader, hdr: PositionHeader)
    requires c.maxLen > 0 && IsData(packet.bytes)
    requires var arrived := Parse(packet.bytes).hdr;
             hdr == if LeavesRecovery(m.here, arrived) then arrived.(inRec := 0) else arrived
    ensures var purged := st.(table := Live(st.table, c.lifeTime, m.now));
            var view, payload := Positions(purged.table), Parse(packet.bytes).payload;
            var d := if hdr.inRec != 0 then Recover(c.graph, view, m.here, hdr)
                     else Afresh(c.graph, view, m.here, header.dst, hdr, m.places(header.dst).fix);
            ForwardedOn(c, st, m, packet, header) == (Acted(c, purged, m.now, packet, header, payload, d), true)
  {
  }

  lemma FrameIsData(hdr: PositionHeader, payload: seq<U8>)
    ensures IsData(Frame(hdr, payload)) && Parse(Frame(hdr, payload)) == Data(hdr, payload)
  {
    FrameRoundTrip(hdr, payload);
  }

  ghost predicate DealsGreedily(deal: QueueEntry -> Event, address: Addr, m: Moment, dst: Addr, nextHop: Addr,
                                e: QueueEntry)
  {
    e.header.dst == dst ==> deal(e) == SentGreedily(address, m, nextHop, e)
  }

  ghost predicate DealsInRecovery(deal: QueueEntry -> Event, graph: U8, m: Moment, dst: Addr, view: map<Addr, Point>,
                                  e: QueueEntry)
  {
    e.header.dst == dst ==> deal(e) == SentInRecovery(graph, m, view, e)
  }

  /** Of the whole loop, the events are before, and the loop on the queue q is still to come. */
  ghost predicate Remains(whole: Pumped, before: seq<Event>, q: seq<QueueEntry>, now: Time, dst: Addr,
                          deal: QueueEntry -> Event)
  {
    var rest := Pump(q, now, dst, deal);
    whole == Pumped(rest.queue, before + rest.events, rest.done)
  }

  /** Of the whole loop, the events are before, and an entry, if any is left, has just been taken. */
  ghost predicate InHand(whole: Pumped, before: seq<Event>, entry: Option<QueueEntry>, q: seq<QueueEntry>, now: Time,
                         dst: Addr, deal: QueueEntry -> Event)
  {
    match entry
    case None => whole == Pumped(q, before, true)
    case Some(e) =>
      if IsData(e.packet.bytes) then Remains(whole, before + [deal(e)], q, now, dst, deal)
      else whole == Pumped(q, before + [deal(e)], false)
  }

  lemma AfterDequeue(q: seq<QueueEntry>, now: Time, dst: Addr)
    ensures var r := Dequeued(q, now, dst);
            && |r.queue| <= |q|
            && (r.result.Some? ==> r.result.value.header.dst == dst && |r.queue| < |q|)
  {
    SelectMembers(q, InTime(now));
    if Dequeued(q, now, dst).result.Some? {
      DequeueShrinks(q, now, dst);
    }
  }

  lemma DequeueBringsInHand(whole: Pumped, before: seq<Event>, q: seq<QueueEntry>, now: Time, dst: Addr,
                            deal: QueueEntry -> Event)
    requires Remains(whole, before, q, now, dst, deal)
    ensures var r := Dequeued(q, now, dst);
            InHand(whole, before + Reports(r.errors), r.result, r.queue, now, dst, deal)
  {
  }

}
