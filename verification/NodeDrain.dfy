/** What one CheckQueue achieves: destination by destination in general, and for the whole queue when every
    queued packet has a valid type header. */
module NodeDrain {
  import opened Types
  import opened Packets
  import opened RequestQueue
  import opened NodeModel
  import opened NodeRuns

  lemma FirstIsMember<T>(s: seq<T>)
    ensures s == [] || s[0] in s
  {
  }

  ghost predicate AllData(q: seq<QueueEntry>) {
    forall e :: e in q ==> IsData(e.packet.bytes)
  }

  function Deals(entries: seq<QueueEntry>, deal: QueueEntry -> Event): seq<Event> {
    if entries == [] then [] else [deal(entries[0])] + Deals(entries[1..], deal)
  }

  /** The destination is still being searched for. */
  function Searching(m: Moment): QueueEntry -> bool {
    (e: QueueEntry) => m.places(e.header.dst).inSearch
  }

  /** Still waiting when the listed addresses have been tried. */
  function Waiting(m: Moment, tried: seq<Addr>): QueueEntry -> bool {
    (e: QueueEntry) => m.places(e.header.dst).inSearch || e.header.dst !in tried
  }

  /** Of the packets waiting for a destination, those that one attempt deals with: all up to the first of
      unknown type, which it throws away. */
  function TakenFrom(w: seq<QueueEntry>): seq<QueueEntry> {
    if w == [] then []
    else if !IsData(w[0].packet.bytes) then [w[0]]
    else [w[0]] + TakenFrom(w[1..])
  }

  /** ... and those that it leaves waiting. */
  function LeftAfter(w: seq<QueueEntry>): seq<QueueEntry> {
    if w == [] then []
    else if !IsData(w[0].packet.bytes) then w[1..]
    else LeftAfter(w[1..])
  }

  lemma {:induction false} AttemptSplits(w: seq<QueueEntry>)
    ensures w == TakenFrom(w) + LeftAfter(w)
    ensures AllData(w) ==> TakenFrom(w) == w && LeftAfter(w) == []
    ensures !AllData(w) ==> |LeftAfter(w)| < |w|
  {
    if w != [] {
      AttemptSplits(w[1..]);
      WithOneMore(w[0], w[1..]);
      assert w == [w[0]] + w[1..];
    }
  }

  /** What waits for a destination. */
  function WaitingFor(q: seq<QueueEntry>, now: Time, dst: Addr): seq<QueueEntry> {
    Select(Fresh(q, now), Toward(dst))
  }

  /** The sending loop deals with the live packets for the destination in the order they were accepted, up to
      and including the first of unknown type; it succeeds if there is none; the others stay in order. */
  ghost predicate StopsAtUnknown(q: seq<QueueEntry>, now: Time, dst: Addr, deal: QueueEntry -> Event) {
    var p, w := Pump(q, now, dst, deal), WaitingFor(q, now, dst);
    && (p.done <==> AllData(w))
    && p.events == Reports(Stale(q, now)) + Deals(TakenFrom(w), deal)
    && Fresh(p.queue, now) == p.queue
    && WaitingFor(p.queue, now, dst) == LeftAfter(w)
    && Select(p.queue, Elsewhere(dst)) == Select(Fresh(q, now), Elsewhere(dst))
  }

  lemma {:induction false} PumpStopsAtUnknown(q: seq<QueueEntry>, now: Time, dst: Addr, deal: QueueEntry -> Event)
    ensures StopsAtUnknown(q, now, dst, deal)
    decreases |Fresh(q, now)|, |q|
  {
    var r := Dequeued(q, now, dst);
    SelectMembers(q, InTime(now));
    if r.result.None? {
      NothingToDrain(q, now, dst);
      SelectAll(Fresh(q, now), InTime(now));
    } else if IsData(r.result.value.packet.bytes) {
      DequeueShrinks(q, now, dst);
      PumpStopsAtUnknown(r.queue, now, dst, deal);
      GoingOnStopsAtUnknown(q, now, dst, deal);
    } else {
      StoppingStopsAtUnknown(q, now, dst, deal);
    }
  }

  /** Taking one packet out of the queue takes the first out of those waiting. */
  lemma TakingOne(q: seq<QueueEntry>, now: Time, dst: Addr)
    requires Dequeued(q, now, dst).result.Some?
    ensures var r := Dequeued(q, now, dst);
            && WaitingFor(q, now, dst) == [r.result.value] + WaitingFor(r.queue, now, dst)
            && Select(r.queue, Elsewhere(dst)) == Select(Fresh(q, now), Elsewhere(dst))
            && Fresh(r.queue, now) == r.queue && Stale(r.queue, now) == []
  {
    DequeueShrinks(q, now, dst);
    TakeOutFirst(Fresh(q, now), FirstToward(Fresh(q, now), dst), dst);
  }

  lemma WithOneMore(e: QueueEntry, w: seq<QueueEntry>)
    ensures AllData([e] + w) <==> IsData(e.packet.bytes) && AllData(w)
    ensures IsData(e.packet.bytes) ==> TakenFrom([e] + w) == [e] + TakenFrom(w) && LeftAfter([e] + w) == LeftAfter(w)
    ensures !IsData(e.packet.bytes) ==> TakenFrom([e] + w) == [e] && LeftAfter([e] + w) == w
  {
    assert ([e] + w)[1..] == w;
  }

  lemma GoingOnStopsAtUnknown(q: seq<QueueEntry>, now: Time, dst: Addr, deal: QueueEntry -> Event)
    requires Dequeued(q, now, dst).result.Some? && IsData(Dequeued(q, now, dst).result.value.packet.bytes)
    requires StopsAtUnknown(Dequeued(q, now, dst).queue, now, dst, deal)
    ensures StopsAtUnknown(q, now, dst, deal)
  {
    var r := Dequeued(q, now, dst);
    var w := WaitingFor(r.queue, now, dst);
    TakingOne(q, now, dst);
    WithOneMore(r.result.value, w);
    PumpTakesOneMore(q, now, dst, deal);
    NoReports(Pump(r.queue, now, dst, deal).events, Deals(TakenFrom(w), deal));
  }

  lemma StoppingStopsAtUnknown(q: seq<QueueEntry>, now: Time, dst: Addr, deal: QueueEntry -> Event)
    requires Dequeued(q, now, dst).result.Some? && !IsData(Dequeued(q, now, dst).result.value.packet.bytes)
    ensures StopsAtUnknown(q, now, dst, deal)
  {
    var r := Dequeued(q, now, dst);
    TakingOne(q, now, dst);
    WithOneMore(r.result.value, WaitingFor(r.queue, now, dst));
  }

  /** Without packets of unknown type the sending loop runs to its end. */
  lemma PumpDealsWithAllInOrder(q: seq<QueueEntry>, now: Time, dst: Addr, deal: QueueEntry -> Event)
    requires AllData(q)
    ensures var p := Pump(q, now, dst, deal);
            && p.done
            && p.queue == Select(Fresh(q, now), Elsewhere(dst))
            && p.events == Reports(Stale(q, now)) + Deals(WaitingFor(q, now, dst), deal)
  {
    PumpStopsAtUnknown(q, now, dst, deal);
    SelectMembers(q, InTime(now));
    SelectMembers(Fresh(q, now), Toward(dst));
    AttemptSplits(WaitingFor(q, now, dst));
    NobodyWaiting(Pump(q, now, dst, deal).queue, dst);
  }

  lemma {:induction false} NobodyWaiting(q: seq<QueueEntry>, dst: Addr)
    requires Select(q, Toward(dst)) == []
    ensures Select(q, Elsewhere(dst)) == q
  {
    SelectMembers(q, Toward(dst));
    forall e | e in q
      ensures Elsewhere(dst)(e)
    {
      assert e !in Select(q, Toward(dst));
    }
    SelectAll(q, Elsewhere(dst));
  }

  lemma NoReports(events: seq<Event>, deals: seq<Event>)
    requires events == Reports([]) + deals
    ensures events == deals
  {
    assert Reports([]) == [];
  }

  lemma PumpTakesOneMore(q: seq<QueueEntry>, now: Time, dst: Addr, deal: QueueEntry -> Event)
    requires var r := Dequeued(q, now, dst);
             r.result.Some? && IsData(r.result.value.packet.bytes)
    ensures var r := Dequeued(q, now, dst);
            var p, rest := Pump(q, now, dst, deal), Pump(r.queue, now, dst, deal);
            && p.queue == rest.queue && p.done == rest.done
            && p.events == Reports(Stale(q, now)) + ([deal(r.result.value)] + rest.events)
  {
  }

  lemma {:induction false} SelectAgrees(q: seq<QueueEntry>, f: QueueEntry -> bool, g: QueueEntry -> bool)
    requires forall e :: e in q ==> (f(e) <==> g(e))
    ensures Select(q, f) == Select(q, g)
  {
    if q != [] {
      var n := |q| - 1;
      assert q[n] in q;
      assert forall e :: e in q[..n] ==> e in q;
      SelectAgrees(q[..n], f, g);
    }
  }

  lemma {:induction false} SelectTwice(q: seq<QueueEntry>, f: QueueEntry -> bool, g: QueueEntry -> bool,
                                       both: QueueEntry -> bool)
    requires forall e :: both(e) <==> f(e) && g(e)
    ensures Select(Select(q, f), g) == Select(q, both)
  {
    if q != [] {
      var n := |q| - 1;
      SelectTwice(q[..n], f, g, both);
      if f(q[n]) {
        SelectConcat(Select(q[..n], f), [q[n]], g);
      }
    }
  }

  /** One attempt leaves the live packets for other destinations, and those for a destination still
      being searched for; done tells which. */
  lemma SendLeaves(c: Config, st: State, m: Moment, dst: Addr, after: State, done: bool)
    requires AllData(st.queue) && SentFromQueue(c, st, m, dst) == (after, done)
    ensures done == !m.places(dst).inSearch && AllData(after.queue)
    ensures Fresh(after.queue, m.now)
            == if done then Select(Fresh(st.queue, m.now), Elsewhere(dst)) else Fresh(st.queue, m.now)
  {
    SendOnlyRemoves(c, st, m, dst);
    PumpDealsWithAllInOrder(st.queue, m.now, dst, Dealing(c, st.table, m, dst));
    var left := Select(Fresh(st.queue, m.now), Elsewhere(dst));
    SelectMembers(st.queue, InTime(m.now));
    SelectMembers(Fresh(st.queue, m.now), Elsewhere(dst));
    SelectAll(left, InTime(m.now));
  }

  /** The live packets left when the first k listed addresses have been tried. */
  ghost predicate Swept(m: Moment, st: State, k: nat, swept: State)
    requires k <= |st.addrs|
  {
    && AllData(swept.queue)
    && Fresh(swept.queue, m.now) == Select(Fresh(st.queue, m.now), Waiting(m, st.addrs[..k]))
  }

  lemma SweepLeavesNext(m: Moment, st: State, k: nat, before: State, after: State, done: bool)
    requires k < |st.addrs| && Swept(m, st, k, before) && AllData(after.queue)
    requires done == !m.places(st.addrs[k]).inSearch
    requires Fresh(after.queue, m.now)
             == if done then Select(Fresh(before.queue, m.now), Elsewhere(st.addrs[k])) else Fresh(before.queue, m.now)
    ensures Swept(m, st, k + 1, after)
  {
    WaitingForOneFewer(Fresh(st.queue, m.now), m, st.addrs[..k], st.addrs[k]);
    assert st.addrs[..k + 1] == st.addrs[..k] + [st.addrs[k]];
  }

  lemma {:induction false} SweepLeaves(c: Config, st: State, m: Moment, k: nat)
    requires k <= |st.addrs| && AllData(st.queue)
    ensures Swept(m, st, k, CheckedUpTo(c, st, m, k).0)
  {
    if k == 0 {
      SelectAll(Fresh(st.queue, m.now), Waiting(m, []));
      assert st.addrs[..0] == [];
    } else {
      SweepLeaves(c, st, m, k - 1);
      var (before, toRemove) := CheckedUpTo(c, st, m, k - 1);
      var (after, done) := SentFromQueue(c, before, m, st.addrs[k - 1]);
      SendLeaves(c, before, m, st.addrs[k - 1], after, done);
      SweepLeavesNext(m, st, k - 1, before, after, done);
    }
  }

  lemma WaitingForOneFewer(live: seq<QueueEntry>, m: Moment, tried: seq<Addr>, a: Addr)
    ensures Select(live, Waiting(m, tried + [a]))
            == if m.places(a).inSearch then Select(live, Waiting(m, tried))
               else Select(Select(live, Waiting(m, tried)), Elsewhere(a))
  {
    if m.places(a).inSearch {
      SelectAgrees(live, Waiting(m, tried), Waiting(m, tried + [a]));
    } else {
      SelectTwice(live, Waiting(m, tried), Elsewhere(a), Waiting(m, tried + [a]));
    }
  }

  // ---------- destination by destination ----------

  /** What n attempts leave of the packets waiting for a destination. */
  function LeftAfterAttempts(w: seq<QueueEntry>, n: nat): seq<QueueEntry> {
    if n == 0 then w else LeftAfter(LeftAfterAttempts(w, n - 1))
  }

  /** What is left of the packets waiting for d after d has been tried n times, as the location service has it. */
  function Remaining(m: Moment, d: Addr, w: seq<QueueEntry>, n: nat): seq<QueueEntry> {
    if m.places(d).inSearch || n == 0 then w
    else if !m.places(d).hasPosition then []
    else LeftAfterAttempts(w, n)
  }

  /** One of n attempts, hence the last, has found nothing but packets of known type, or no position. */
  ghost predicate Succeeded(m: Moment, d: Addr, w: seq<QueueEntry>, n: nat) {
    !m.places(d).inSearch && n > 0 && (!m.places(d).hasPosition || AllData(LeftAfterAttempts(w, n - 1)))
  }

  function Occurrences(addrs: seq<Addr>, d: Addr): nat {
    if addrs == [] then 0 else Occurrences(addrs[..|addrs| - 1], d) + if addrs[|addrs| - 1] == d then 1 else 0
  }

  /** Sending to one destination does not touch what waits for another. */
  lemma OthersUntouched(q: seq<QueueEntry>, r: seq<QueueEntry>, dst: Addr, d: Addr)
    requires Select(q, Elsewhere(dst)) == Select(r, Elsewhere(dst)) && d != dst
    ensures Select(q, Toward(d)) == Select(r, Toward(d))
  {
    SelectTwice(q, Elsewhere(dst), Toward(d), Toward(d));
    SelectTwice(r, Elsewhere(dst), Toward(d), Toward(d));
  }

  lemma DroppingLeaves(q: seq<QueueEntry>, now: Time, dst: Addr)
    ensures var r := DroppedToward(q, now, dst).queue;
            && Fresh(r, now) == r && WaitingFor(r, now, dst) == []
            && Select(r, Elsewhere(dst)) == Select(Fresh(q, now), Elsewhere(dst))
  {
    var r := DroppedToward(q, now, dst).queue;
    SelectMembers(q, InTime(now));
    SelectMembers(Fresh(q, now), Elsewhere(dst));
    SelectAll(r, InTime(now));
    SelectNone(r, Toward(dst));
    SelectAll(r, Elsewhere(dst));
  }

  /** What an attempt for dst leaves waiting for any destination d, and whether it succeeds. */
  ghost predicate AttemptedToward(m: Moment, st: State, dst: Addr, d: Addr, after: State, done: bool) {
    var w := WaitingFor(st.queue, m.now, d);
    && WaitingFor(after.queue, m.now, d) == Remaining(m, d, w, if d == dst then 1 else 0)
    && (d == dst ==> (done <==> Succeeded(m, d, w, 1)))
  }

  lemma AttemptForOther(c: Config, st: State, m: Moment, dst: Addr, d: Addr)
    requires d != dst
    ensures WaitingFor(SentFromQueue(c, st, m, dst).0.queue, m.now, d) == WaitingFor(st.queue, m.now, d)
  {
    var deal := Dealing(c, st.table, m, dst);
    PumpStopsAtUnknown(st.queue, m.now, dst, deal);
    DroppingLeaves(st.queue, m.now, dst);
    OthersUntouched(Pump(st.queue, m.now, dst, deal).queue, Fresh(st.queue, m.now), dst, d);
    OthersUntouched(DroppedToward(st.queue, m.now, dst).queue, Fresh(st.queue, m.now), dst, d);
  }

  lemma AttemptForItself(c: Config, st: State, m: Moment, d: Addr)
    ensures var (after, done) := SentFromQueue(c, st, m, d);
            AttemptedToward(m, st, d, d, after, done)
  {
    PumpStopsAtUnknown(st.queue, m.now, d, Dealing(c, st.table, m, d));
    DroppingLeaves(st.queue, m.now, d);
    assert LeftAfterAttempts(WaitingFor(st.queue, m.now, d), 0) == WaitingFor(st.queue, m.now, d);
  }

  lemma AttemptToward(c: Config, st: State, m: Moment, dst: Addr, d: Addr)
    ensures var (after, done) := SentFromQueue(c, st, m, dst);
            AttemptedToward(m, st, dst, d, after, done)
  {
    if d == dst {
      AttemptForItself(c, st, m, d);
    } else {
      AttemptForOther(c, st, m, dst, d);
    }
  }

  /** A further attempt after n. */
  lemma OneMoreAttempt(m: Moment, d: Addr, w: seq<QueueEntry>, n: nat)
    ensures Remaining(m, d, Remaining(m, d, w, n), 1) == Remaining(m, d, w, n + 1)
    ensures Succeeded(m, d, w, n) ==> Succeeded(m, d, w, n + 1)
    ensures Succeeded(m, d, Remaining(m, d, w, n), 1) <==> Succeeded(m, d, w, n + 1)
  {
    assert LeftAfterAttempts(Remaining(m, d, w, n), 0) == Remaining(m, d, w, n);
    assert LeftAfterAttempts(Remaining(m, d, w, n), 1) == LeftAfter(Remaining(m, d, w, n));
    if n > 0 {
      AttemptSplits(LeftAfterAttempts(w, n - 1));
    }
  }

  /** What waits for d, and whether d is to be struck off, when the first k listed addresses have been tried. */
  ghost predicate SweptToward(m: Moment, st: State, k: nat, d: Addr, swept: State, toRemove: seq<Addr>)
    requires k <= |st.addrs|
  {
    var w, n := WaitingFor(st.queue, m.now, d), Occurrences(st.addrs[..k], d);
    && WaitingFor(swept.queue, m.now, d) == Remaining(m, d, w, n)
    && (d in toRemove <==> Succeeded(m, d, w, n))
  }

  lemma OneMoreOccurrence(addrs: seq<Addr>, k: nat, d: Addr)
    requires k < |addrs|
    ensures Occurrences(addrs[..k + 1], d) == Occurrences(addrs[..k], d) + if addrs[k] == d then 1 else 0
  {
    assert addrs[..k + 1][..k] == addrs[..k];
  }

  lemma SweepStep(m: Moment, st: State, k: nat, d: Addr, before: State, toRemove: seq<Addr>, after: State, done: bool)
    requires k < |st.addrs| && SweptToward(m, st, k, d, before, toRemove)
    requires AttemptedToward(m, before, st.addrs[k], d, after, done)
    ensures SweptToward(m, st, k + 1, d, after, if done then [st.addrs[k]] + toRemove else toRemove)
  {
    OneMoreOccurrence(st.addrs, k, d);
    OneMoreAttempt(m, d, WaitingFor(st.queue, m.now, d), Occurrences(st.addrs[..k], d));
  }

  lemma {:induction false} SweepToward(c: Config, st: State, m: Moment, k: nat, d: Addr)
    requires k <= |st.addrs|
    ensures var (swept, toRemove) := CheckedUpTo(c, st, m, k);
            SweptToward(m, st, k, d, swept, toRemove)
  {
    if k > 0 {
      SweepToward(c, st, m, k - 1, d);
      var (before, toRemove) := CheckedUpTo(c, st, m, k - 1);
      var (after, done) := SentFromQueue(c, before, m, st.addrs[k - 1]);
      AttemptToward(c, before, m, st.addrs[k - 1], d);
      SweepStep(m, st, k - 1, d, before, toRemove, after, done);
    }
  }

  /** Exactly what a CheckQueue leaves waiting for a destination, and whether it stays listed, with packets of
      unknown type in the queue or not: each of these ends one attempt, and a destination is tried as often as
      it is listed. */
  lemma CheckLeavesToward(c: Config, st: State, m: Moment, d: Addr)
    ensures var after := Checked(c, st, m);
            var w, n := WaitingFor(st.queue, m.now, d), Occurrences(st.addrs, d);
            && WaitingFor(after.queue, m.now, d) == Remaining(m, d, w, n)
            && (d in after.addrs <==> d in st.addrs && !Succeeded(m, d, w, n))
  {
    SweepToward(c, st, m, |st.addrs|, d);
    assert st.addrs[..|st.addrs|] == st.addrs;
    RemoveAllMembers(st.addrs, CheckedUpTo(c, st, m, |st.addrs|).1);
  }

  // ---------- without packets of unknown type ----------

  lemma {:induction false} ListedOccurs(addrs: seq<Addr>, d: Addr)
    ensures d in addrs <==> Occurrences(addrs, d) > 0
  {
    if addrs != [] {
      var n := |addrs| - 1;
      ListedOccurs(addrs[..n], d);
      assert addrs == addrs[..n] + [addrs[n]];
    }
  }

  lemma {:induction false} AttemptsLeaveData(w: seq<QueueEntry>, n: nat)
    requires AllData(w)
    ensures AllData(LeftAfterAttempts(w, n))
  {
    if n > 0 {
      AttemptsLeaveData(w, n - 1);
      AttemptSplits(LeftAfterAttempts(w, n - 1));
    }
  }

  lemma ListedAfterCheck(c: Config, st: State, m: Moment, d: Addr)
    requires AllData(st.queue)
    ensures d in Checked(c, st, m).addrs <==> d in st.addrs && m.places(d).inSearch
  {
    var w, n := WaitingFor(st.queue, m.now, d), Occurrences(st.addrs, d);
    CheckLeavesToward(c, st, m, d);
    ListedOccurs(st.addrs, d);
    SelectMembers(st.queue, InTime(m.now));
    SelectMembers(Fresh(st.queue, m.now), Toward(d));
    if n > 0 {
      AttemptsLeaveData(w, n - 1);
    }
  }

  /** Exactly what a CheckQueue leaves behind: of the live packets those whose destination is still
      being searched for, in order; of the addresses likewise; and the timer is armed again exactly
      when an address is left. */
  lemma CheckLeavesExactlyTheSearching(c: Config, st: State, m: Moment)
    requires Inv(c, st, m.now) && AllData(st.queue)
    ensures var after := Checked(c, st, m);
            && Fresh(after.queue, m.now) == Select(Fresh(st.queue, m.now), Searching(m))
            && (forall a :: a in after.addrs <==> a in st.addrs && m.places(a).inSearch)
            && (after.timer.Some? <==> exists a :: a in st.addrs && m.places(a).inSearch)
  {
    SweepLeaves(c, st, m, |st.addrs|);
    assert st.addrs[..|st.addrs|] == st.addrs;
    SelectMembers(st.queue, InTime(m.now));
    SelectAgrees(Fresh(st.queue, m.now), Waiting(m, st.addrs), Searching(m));
    var after := Checked(c, st, m);
    forall a
      ensures a in after.addrs <==> a in st.addrs && m.places(a).inSearch
    {
      ListedAfterCheck(c, st, m, a);
    }
    FirstIsMember(after.addrs);
  }

  /** Full drain: if no destination is being searched for any more, one CheckQueue leaves the queue and
      the address list empty and the timer unarmed. */
  lemma CheckDrainsFully(c: Config, st: State, m: Moment)
    requires Inv(c, st, m.now) && AllData(st.queue)
    requires forall a :: a in st.addrs ==> !m.places(a).inSearch
    ensures var after := Checked(c, st, m);
            after.queue == [] && after.addrs == [] && after.timer == None
  {
    CheckKeepsInv(c, st, m);
    var after := Checked(c, st, m);
    FirstIsMember(after.addrs);
    FirstIsMember(after.queue);
    if after.addrs != [] {
      ListedAfterCheck(c, st, m, after.addrs[0]);
    }
  }
}
