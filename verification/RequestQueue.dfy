/** The queue of deferred packets: bounded, free of duplicates, with entries that expire. */
module RequestQueue {
  import opened Types

  /** A packet: its bytes, the identity that copies of it share, and whether it carries the tag that
      sends it back from the loopback device to be deferred. */
  datatype Packet = Packet(uid: nat, bytes: seq<U8>, tagged: bool)

  datatype IpHeader = IpHeader(src: Addr, dst: Addr)

  datatype QueueEntry = QueueEntry(packet: Packet, header: IpHeader, expire: Time)

  // ---------- what the queue contains ----------

  /** The entries that satisfy a condition, in order. */
  function Select(q: seq<QueueEntry>, keep: QueueEntry -> bool): seq<QueueEntry> {
    if q == [] then []
    else
      var chosen := Select(q[..|q| - 1], keep);
      if keep(q[|q| - 1]) then chosen + [q[|q| - 1]] else chosen
  }

  /** The remaining time is negative. */
  predicate IsExpired(e: QueueEntry, now: Time) {
    e.expire - now < 0
  }

  function Outdated(now: Time): QueueEntry -> bool {
    (e: QueueEntry) => IsExpired(e, now)
  }

  function InTime(now: Time): QueueEntry -> bool {
    (e: QueueEntry) => !IsExpired(e, now)
  }

  function Toward(dst: Addr): QueueEntry -> bool {
    (e: QueueEntry) => e.header.dst == dst
  }

  function Elsewhere(dst: Addr): QueueEntry -> bool {
    (e: QueueEntry) => e.header.dst != dst
  }

  function Fresh(q: seq<QueueEntry>, now: Time): seq<QueueEntry> {
    Select(q, InTime(now))
  }

  function Stale(q: seq<QueueEntry>, now: Time): seq<QueueEntry> {
    Select(q, Outdated(now))
  }

  predicate Same(e: QueueEntry, f: QueueEntry) {
    e.packet.uid == f.packet.uid && e.header.dst == f.header.dst
  }

  predicate IsDuplicate(q: seq<QueueEntry>, e: QueueEntry) {
    exists f :: f in q && Same(f, e)
  }

  // ---------- what the operations do ----------

  /** The queue after an operation, the entries whose error callback it called, in order, and the
      entry or verdict it returned. */
  datatype Effect<T> = Effect(queue: seq<QueueEntry>, errors: seq<QueueEntry>, result: T)

  function Enqueued(q: seq<QueueEntry>, maxLen: nat, timeout: Time, now: Time, e: QueueEntry): Effect<bool>
    requires maxLen > 0
  {
    var live, gone := Fresh(q, now), Stale(q, now);
    if IsDuplicate(live, e) then Effect(live, gone, false)
    else
      var entry := e.(expire := timeout + now);
      if |live| == maxLen then Effect(live[1..] + [entry], gone + [live[0]], true)
      else Effect(live + [entry], gone, true)
  }

  function FirstToward(q: seq<QueueEntry>, dst: Addr): (i: nat)
    ensures i <= |q|
    ensures forall j :: 0 <= j < i ==> q[j].header.dst != dst
    ensures i < |q| ==> q[i].header.dst == dst
  {
    if q == [] || q[0].header.dst == dst then 0 else 1 + FirstToward(q[1..], dst)
  }

  function Dequeued(q: seq<QueueEntry>, now: Time, dst: Addr): Effect<Option<QueueEntry>> {
    var live, gone := Fresh(q, now), Stale(q, now);
    var i := FirstToward(live, dst);
    if i == |live| then Effect(live, gone, None)
    else Effect(live[..i] + live[i + 1..], gone, Some(live[i]))
  }

  function DroppedToward(q: seq<QueueEntry>, now: Time, dst: Addr): Effect<()> {
    var live, gone := Fresh(q, now), Stale(q, now);
    Effect(Select(live, Elsewhere(dst)), gone + Select(live, Toward(dst)), ())
  }

  // ---------- the queue object ----------

  class PacketQueue {
    var queue: seq<QueueEntry>
    var maxLen: nat
    var timeout: Time
    /** Every entry whose error callback was called. */
    ghost var errors: seq<QueueEntry>

    constructor (len: nat, routeToQueueTimeout: Time)
      ensures queue == [] && errors == [] && maxLen == len && timeout == routeToQueueTimeout
    {
      queue, errors := [], [];
      maxLen, timeout := len, routeToQueueTimeout;
    }

    /** Report each entry that fails the condition, then take all of them out: two passes that agree. */
    method DropUnless(keep: QueueEntry -> bool, drop: QueueEntry -> bool)
      requires forall e :: drop(e) <==> !keep(e)
      modifies this`queue, this`errors
      ensures queue == Select(old(queue), keep)
      ensures errors == old(errors) + Select(old(queue), drop)
    {
      for i := 0 to |queue|
        invariant queue == old(queue)
        invariant errors == old(errors) + Select(queue[..i], drop)
      {
        assert queue[..i + 1][..i] == queue[..i];
        if drop(queue[i]) {
          errors := errors + [queue[i]];
        }
      }
      assert queue[..|queue|] == queue;
      var kept: seq<QueueEntry> := [];
      for i := 0 to |queue|
        invariant queue == old(queue)
        invariant errors == old(errors) + Select(queue, drop)
        invariant kept == Select(queue[..i], keep)
      {
        assert queue[..i + 1][..i] == queue[..i];
        if !drop(queue[i]) {
          kept := kept + [queue[i]];
        }
      }
      assert queue[..|queue|] == queue;
      queue := kept;
    }

    method Purge(now: Time)
      modifies this`queue, this`errors
      ensures queue == Fresh(old(queue), now)
      ensures errors == old(errors) + Stale(old(queue), now)
    {
      DropUnless(InTime(now), Outdated(now));
    }

    method GetSize(now: Time) returns (size: nat)
      modifies this`queue, this`errors
      ensures queue == Fresh(old(queue), now)
      ensures errors == old(errors) + Stale(old(queue), now)
      ensures size == |queue|
    {
      Purge(now);
      size := |queue|;
    }

    method Enqueue(e: QueueEntry, now: Time) returns (accepted: bool)
      requires maxLen > 0
      modifies this`queue, this`errors
      ensures var effect := Enqueued(old(queue), maxLen, timeout, now, e);
              queue == effect.queue && errors == old(errors) + effect.errors && accepted == effect.result
    {
      Purge(now);
      for i := 0 to |queue|
        invariant forall j :: 0 <= j < i ==> !Same(queue[j], e)
      {
        if Same(queue[i], e) {
          assert queue[i] in queue;
          return false;
        }
      }
      var entry := e.(expire := timeout + now);
      if |queue| == maxLen {
        errors := errors + [queue[0]];
        queue := queue[1..];
      }
      queue := queue + [entry];
      return true;
    }

    method DropPacketWithDst(dst: Addr, now: Time)
      modifies this`queue, this`errors
      ensures var effect := DroppedToward(old(queue), now, dst);
              queue == effect.queue && errors == old(errors) + effect.errors
    {
      Purge(now);
      DropUnless(Elsewhere(dst), Toward(dst));
    }

    method Dequeue(dst: Addr, now: Time) returns (entry: Option<QueueEntry>)
      modifies this`queue, this`errors
      ensures var effect := Dequeued(old(queue), now, dst);
              queue == effect.queue && errors == old(errors) + effect.errors && entry == effect.result
    {
      Purge(now);
      var i := 0;
      while i < |queue|
        invariant 0 <= i <= |queue|
        invariant forall j :: 0 <= j < i ==> queue[j].header.dst != dst
        invariant queue == Fresh(old(queue), now) && errors == old(errors) + Stale(old(queue), now)
      {
        if queue[i].header.dst == dst {
          entry := Some(queue[i]);
          queue := queue[..i] + queue[i + 1..];
          return;
        }
        i := i + 1;
      }
      entry := None;
    }

    /** Looks without purging. */
    method Find(dst: Addr) returns (found: bool)
      ensures found <==> exists e :: e in queue && e.header.dst == dst
    {
      for i := 0 to |queue|
        invariant forall j :: 0 <= j < i ==> queue[j].header.dst != dst
      {
        if queue[i].header.dst == dst {
          assert queue[i] in queue;
          return true;
        }
      }
      return false;
    }
  }

  // ---------- selecting ----------

  lemma {:induction false} SelectMembers(q: seq<QueueEntry>, keep: QueueEntry -> bool)
    ensures forall e :: e in Select(q, keep) <==> e in q && keep(e)
    ensures |Select(q, keep)| <= |q|
  {
    if q != [] {
      var n := |q| - 1;
      SelectMembers(q[..n], keep);
      assert forall e :: e in q <==> e in q[..n] || e == q[n];
    }
  }

  /** Selecting by a condition and by its negation splits the entries, duplicates and all. */
  lemma {:induction false} SelectSplits(q: seq<QueueEntry>, keep: QueueEntry -> bool, drop: QueueEntry -> bool)
    requires forall e :: drop(e) <==> !keep(e)
    ensures multiset(q) == multiset(Select(q, keep)) + multiset(Select(q, drop))
    ensures |q| == |Select(q, keep)| + |Select(q, drop)|
  {
    if q != [] {
      var n := |q| - 1;
      SelectSplits(q[..n], keep, drop);
      assert q == q[..n] + [q[n]];
    }
  }

  lemma {:induction false} SelectAll(q: seq<QueueEntry>, keep: QueueEntry -> bool)
    requires forall e :: e in q ==> keep(e)
    ensures Select(q, keep) == q
  {
    if q != [] {
      var n := |q| - 1;
      assert q[n] in q;
      assert forall e :: e in q[..n] ==> e in q;
      SelectAll(q[..n], keep);
      assert q == q[..n] + [q[n]];
    }
  }

  lemma {:induction false} SelectNone(q: seq<QueueEntry>, keep: QueueEntry -> bool)
    requires forall e :: e in q ==> !keep(e)
    ensures Select(q, keep) == []
  {
    if q != [] {
      var n := |q| - 1;
      assert q[n] in q;
      assert forall e :: e in q[..n] ==> e in q;
      SelectNone(q[..n], keep);
    }
  }

  lemma {:induction false} SelectConcat(p: seq<QueueEntry>, q: seq<QueueEntry>, keep: QueueEntry -> bool)
    ensures Select(p + q, keep) == Select(p, keep) + Select(q, keep)
  {
    if q == [] {
      assert p + q == p;
    } else {
      var n := |q| - 1;
      SelectConcat(p, q[..n], keep);
      assert (p + q)[..|p + q| - 1] == p + q[..n];
    }
  }

  /** The entries whose time has not run out, and those whose time has, each in order. */
  lemma FreshAndStale(q: seq<QueueEntry>, now: Time)
    ensures forall f :: f in Fresh(q, now) <==> f in q && now <= f.expire
    ensures forall f :: f in Stale(q, now) <==> f in q && f.expire < now
  {
    SelectMembers(q, InTime(now));
    SelectMembers(q, Outdated(now));
  }

  /** Enqueue, exactly: an entry is refused if and only if one that is still in time holds a packet of the same
      identity for the same destination; otherwise it goes behind the entries still in time, with its own time
      starting now, the first of them giving way if the queue is full; the expired are reported either way. */
  lemma EnqueueExactly(q: seq<QueueEntry>, maxLen: nat, timeout: Time, now: Time, e: QueueEntry)
    requires maxLen > 0
    ensures var r, live := Enqueued(q, maxLen, timeout, now, e), Fresh(q, now);
            && (r.result <==>
                  !exists f ::
                    f in q && now <= f.expire && f.packet.uid == e.packet.uid && f.header.dst == e.header.dst)
            && (!r.result ==> r.queue == live && r.errors == Stale(q, now))
            && (r.result && |live| != maxLen ==>
                  r.queue == live + [QueueEntry(e.packet, e.header, now + timeout)] && r.errors == Stale(q, now))
            && (r.result && |live| == maxLen ==>
                  && r.queue == live[1..] + [QueueEntry(e.packet, e.header, now + timeout)]
                  && r.errors == Stale(q, now) + [live[0]])
  {
    FreshAndStale(q, now);
    assert forall f :: f in q && now <= f.expire <==> f in Fresh(q, now);
    if IsDuplicate(Fresh(q, now), e) {
      var f :| f in Fresh(q, now) && Same(f, e);
      assert f in q && now <= f.expire && f.packet.uid == e.packet.uid && f.header.dst == e.header.dst;
    }
    forall f | f in q && now <= f.expire && f.packet.uid == e.packet.uid && f.header.dst == e.header.dst
      ensures IsDuplicate(Fresh(q, now), e)
    {
      assert f in Fresh(q, now) && Same(f, e);
    }
  }

  // ---------- conservation ----------

  /** Every operation only moves entries: what was queued, and the entry accepted if any, is afterwards
      queued, reported or handed out, each exactly as often as before. */
  lemma EnqueueConserves(q: seq<QueueEntry>, maxLen: nat, timeout: Time, now: Time, e: QueueEntry)
    requires maxLen > 0
    ensures var r := Enqueued(q, maxLen, timeout, now, e);
            multiset(r.queue) + multiset(r.errors)
            == multiset(q) + (if r.result then multiset{e.(expire := timeout + now)} else multiset{})
  {
    var live := Fresh(q, now);
    SelectSplits(q, InTime(now), Outdated(now));
    if |live| == maxLen {
      assert live == [live[0]] + live[1..];
    }
  }

  lemma DequeueConserves(q: seq<QueueEntry>, now: Time, dst: Addr)
    ensures var r := Dequeued(q, now, dst);
            multiset(r.queue) + multiset(r.errors) + (if r.result.Some? then multiset{r.result.value} else multiset{})
            == multiset(q)
  {
    var live := Fresh(q, now);
    SelectSplits(q, InTime(now), Outdated(now));
    var i := FirstToward(live, dst);
    if i < |live| {
      assert live == live[..i] + [live[i]] + live[i + 1..];
    }
  }

  lemma DropConserves(q: seq<QueueEntry>, now: Time, dst: Addr)
    ensures var r := DroppedToward(q, now, dst);
            multiset(r.queue) + multiset(r.errors) == multiset(q)
  {
    SelectSplits(q, InTime(now), Outdated(now));
    SelectSplits(Fresh(q, now), Elsewhere(dst), Toward(dst));
  }

  // ---------- the invariant ----------

  ghost predicate SortedByExpiry(q: seq<QueueEntry>) {
    forall i, j :: 0 <= i < j < |q| ==> q[i].expire <= q[j].expire
  }

  /** No two entries hold copies of one packet for one destination. */
  ghost predicate NoDuplicates(q: seq<QueueEntry>) {
    forall i, j :: 0 <= i < j < |q| ==>
      q[i].packet.uid != q[j].packet.uid || q[i].header.dst != q[j].header.dst
  }

  /** With a constant timeout and a clock that never goes back. */
  ghost predicate Ordered(q: seq<QueueEntry>, maxLen: nat, timeout: Time, now: Time) {
    && SortedByExpiry(q) && NoDuplicates(q) && |q| <= maxLen
    && forall e :: e in q ==> e.expire <= timeout + now
  }

  lemma {:induction false} SelectKeepsOrder(q: seq<QueueEntry>, keep: QueueEntry -> bool)
    requires SortedByExpiry(q) && NoDuplicates(q)
    ensures SortedByExpiry(Select(q, keep)) && NoDuplicates(Select(q, keep))
  {
    if q != [] {
      var n := |q| - 1;
      SelectKeepsOrder(q[..n], keep);
      SelectMembers(q[..n], keep);
      var chosen := Select(q[..n], keep);
      forall i | 0 <= i < |chosen|
        ensures chosen[i].expire <= q[n].expire && !Same(chosen[i], q[n])
      {
        assert chosen[i] in chosen;
        var j :| 0 <= j < n && q[..n][j] == chosen[i];
        assert q[j] == chosen[i];
      }
    }
  }

  lemma SelectKeepsOrdered(q: seq<QueueEntry>, keep: QueueEntry -> bool, maxLen: nat, timeout: Time, now: Time)
    requires Ordered(q, maxLen, timeout, now)
    ensures Ordered(Select(q, keep), maxLen, timeout, now)
  {
    SelectKeepsOrder(q, keep);
    SelectMembers(q, keep);
  }

  /** Time passing keeps the invariant. */
  lemma ClockKeepsOrdered(q: seq<QueueEntry>, maxLen: nat, timeout: Time, now: Time, later: Time)
    requires Ordered(q, maxLen, timeout, now) && now <= later
    ensures Ordered(q, maxLen, timeout, later)
  {
  }

  lemma EnqueueKeepsOrdered(q: seq<QueueEntry>, maxLen: nat, timeout: Time, now: Time, e: QueueEntry)
    requires Ordered(q, maxLen, timeout, now) && maxLen > 0
    ensures Ordered(Enqueued(q, maxLen, timeout, now, e).queue, maxLen, timeout, now)
  {
    var live := Fresh(q, now);
    SelectKeepsOrdered(q, InTime(now), maxLen, timeout, now);
    if !IsDuplicate(live, e) {
      var rest := if |live| == maxLen then live[1..] else live;
      assert forall f :: f in rest ==> f in live;
      AppendKeepsOrdered(rest, e.(expire := timeout + now), maxLen, timeout, now);
    }
  }

  lemma AppendKeepsOrdered(q: seq<QueueEntry>, e: QueueEntry, maxLen: nat, timeout: Time, now: Time)
    requires Ordered(q, maxLen, timeout, now) && |q| < maxLen
    requires e.expire == timeout + now && !IsDuplicate(q, e)
    ensures Ordered(q + [e], maxLen, timeout, now)
  {
    forall i | 0 <= i < |q|
      ensures q[i].expire <= e.expire && !Same(q[i], e)
    {
      assert q[i] in q;
    }
  }

  lemma DequeueKeepsOrdered(q: seq<QueueEntry>, maxLen: nat, timeout: Time, now: Time, dst: Addr)
    requires Ordered(q, maxLen, timeout, now)
    ensures Ordered(Dequeued(q, now, dst).queue, maxLen, timeout, now)
    ensures Ordered(DroppedToward(q, now, dst).queue, maxLen, timeout, now)
  {
    var live := Fresh(q, now);
    SelectKeepsOrdered(q, InTime(now), maxLen, timeout, now);
    SelectKeepsOrdered(live, Elsewhere(dst), maxLen, timeout, now);
    var i := FirstToward(live, dst);
    if i < |live| {
      RemovalKeepsOrdered(live, i, maxLen, timeout, now);
    }
  }

  lemma RemovalKeepsOrdered(q: seq<QueueEntry>, i: nat, maxLen: nat, timeout: Time, now: Time)
    requires Ordered(q, maxLen, timeout, now) && i < |q|
    ensures Ordered(q[..i] + q[i + 1..], maxLen, timeout, now)
  {
  }

  lemma AllExpiredBefore(q: seq<QueueEntry>, now: Time)
    requires SortedByExpiry(q) && q != [] && IsExpired(q[|q| - 1], now)
    ensures forall e :: e in q[..|q| - 1] ==> !InTime(now)(e)
  {
    forall e | e in q[..|q| - 1]
      ensures !InTime(now)(e)
    {
      var i :| 0 <= i < |q| - 1 && q[i] == e;
    }
  }

  /** In a sorted queue the expired entries come first, so purging cuts off a prefix. */
  lemma {:induction false} ExpiredArePrefix(q: seq<QueueEntry>, now: Time)
    requires SortedByExpiry(q)
    ensures q == Stale(q, now) + Fresh(q, now)
  {
    if q != [] {
      var n := |q| - 1;
      ExpiredArePrefix(q[..n], now);
      assert q == q[..n] + [q[n]];
      if IsExpired(q[n], now) {
        AllExpiredBefore(q, now);
        SelectNone(q[..n], InTime(now));
      }
    }
  }

  /** Eviction from a full queue reports an entry that would have expired no later than any other. */
  lemma EvictionIsOldest(q: seq<QueueEntry>, maxLen: nat, timeout: Time, now: Time, e: QueueEntry)
    requires Ordered(q, maxLen, timeout, now) && maxLen > 0
    requires |Fresh(q, now)| == maxLen && Enqueued(q, maxLen, timeout, now, e).result
    ensures var r := Enqueued(q, maxLen, timeout, now, e);
            && r.errors == Stale(q, now) + [Fresh(q, now)[0]] && |r.queue| == maxLen
            && forall f :: f in r.queue ==> Fresh(q, now)[0].expire <= f.expire
  {
    var live := Fresh(q, now);
    SelectKeepsOrdered(q, InTime(now), maxLen, timeout, now);
    forall f | f in live[1..]
      ensures live[0].expire <= f.expire
    {
      var i :| 0 <= i < |live[1..]| && live[1..][i] == f;
      assert live[i + 1] == f;
    }
    assert live[0] in live;
  }

  /** An accepted entry stays in time for exactly the timeout, the last moment included. */
  lemma AcceptedLivesExactly(q: seq<QueueEntry>, maxLen: nat, timeout: Time, now: Time, e: QueueEntry, later: Time)
    requires maxLen > 0 && Enqueued(q, maxLen, timeout, now, e).result
    ensures var r := Enqueued(q, maxLen, timeout, now, e);
            && |r.queue| > 0
            && (r.queue[|r.queue| - 1] in Fresh(r.queue, later) <==> later <= now + timeout)
  {
    var r := Enqueued(q, maxLen, timeout, now, e).queue;
    SelectMembers(r, InTime(later));
    assert r[|r| - 1] in r;
  }

  // ---------- draining ----------

  /** What while (Dequeue(dst)) takes out of the queue, in order, and what it leaves. */
  function Drained(q: seq<QueueEntry>, now: Time, dst: Addr): Effect<seq<QueueEntry>>
    decreases |Fresh(q, now)|, |q|
  {
    var r := Dequeued(q, now, dst);
    SelectMembers(q, InTime(now));
    if r.result.None? then Effect(r.queue, r.errors, [])
    else
      DequeueShrinks(q, now, dst);
      var rest := Drained(r.queue, now, dst);
      Effect(rest.queue, r.errors + rest.errors, [r.result.value] + rest.result)
  }

  lemma DequeueShrinks(q: seq<QueueEntry>, now: Time, dst: Addr)
    requires Dequeued(q, now, dst).result.Some?
    ensures var r := Dequeued(q, now, dst);
            Fresh(r.queue, now) == r.queue && Stale(r.queue, now) == [] && |r.queue| == |Fresh(q, now)| - 1
  {
    SelectMembers(q, InTime(now));
    var live := Fresh(q, now);
    var i := FirstToward(live, dst);
    var r := live[..i] + live[i + 1..];
    assert forall e :: e in r ==> e in live && InTime(now)(e);
    SelectAll(r, InTime(now));
    SelectNone(r, Outdated(now));
  }

  lemma NothingToDrain(q: seq<QueueEntry>, now: Time, dst: Addr)
    requires Dequeued(q, now, dst).result.None?
    ensures Select(Fresh(q, now), Toward(dst)) == [] && Select(Fresh(q, now), Elsewhere(dst)) == Fresh(q, now)
  {
    SelectNone(Fresh(q, now), Toward(dst));
    SelectAll(Fresh(q, now), Elsewhere(dst));
  }

  ghost predicate DrainsInOrder(q: seq<QueueEntry>, now: Time, dst: Addr) {
    Drained(q, now, dst)
    == Effect(Select(Fresh(q, now), Elsewhere(dst)), Stale(q, now), Select(Fresh(q, now), Toward(dst)))
  }

  /** Draining yields exactly the live entries for the destination, in the order they were accepted,
      and leaves the other live entries in theirs; only the expired ones are reported. */
  lemma {:induction false} DrainTakesAllInOrder(q: seq<QueueEntry>, now: Time, dst: Addr)
    ensures DrainsInOrder(q, now, dst)
    decreases |Fresh(q, now)|, |q|
  {
    var r := Dequeued(q, now, dst);
    if r.result.None? {
      NothingToDrain(q, now, dst);
    } else {
      DequeueShrinks(q, now, dst);
      DrainTakesAllInOrder(r.queue, now, dst);
      DrainsOneMore(q, now, dst);
    }
  }

  lemma DrainsOneMore(q: seq<QueueEntry>, now: Time, dst: Addr)
    requires Dequeued(q, now, dst).result.Some? && DrainsInOrder(Dequeued(q, now, dst).queue, now, dst)
    ensures DrainsInOrder(q, now, dst)
  {
    DequeueShrinks(q, now, dst);
    TakeOutFirst(Fresh(q, now), FirstToward(Fresh(q, now), dst), dst);
    DrainedOneMore(q, now, dst, Drained(Dequeued(q, now, dst).queue, now, dst));
  }

  lemma DrainedOneMore(q: seq<QueueEntry>, now: Time, dst: Addr, rest: Effect<seq<QueueEntry>>)
    requires Dequeued(q, now, dst).result.Some? && rest == Drained(Dequeued(q, now, dst).queue, now, dst)
    requires rest.errors == []
    ensures Drained(q, now, dst)
            == Effect(rest.queue, Stale(q, now), [Dequeued(q, now, dst).result.value] + rest.result)
  {
    assert Stale(q, now) + [] == Stale(q, now);
  }

  lemma TakeOutFirst(live: seq<QueueEntry>, i: nat, dst: Addr)
    requires i < |live| && live[i].header.dst == dst
    requires forall j :: 0 <= j < i ==> live[j].header.dst != dst
    ensures var rest := live[..i] + live[i + 1..];
            && Select(live, Toward(dst)) == [live[i]] + Select(rest, Toward(dst))
            && Select(live, Elsewhere(dst)) == Select(rest, Elsewhere(dst))
  {
    var front, back := live[..i], live[i + 1..];
    assert live == front + [live[i]] + back;
    SelectNone(front, Toward(dst));
    SelectAround(front, live[i], back, Toward(dst));
    SelectAround(front, live[i], back, Elsewhere(dst));
  }

  lemma SelectAround(front: seq<QueueEntry>, e: QueueEntry, back: seq<QueueEntry>, keep: QueueEntry -> bool)
    ensures Select(front + [e] + back, keep)
            == Select(front, keep) + (if keep(e) then [e] else []) + Select(back, keep)
    ensures Select(front + back, keep) == Select(front, keep) + Select(back, keep)
  {
    SelectConcat(front + [e], back, keep);
    SelectConcat(front, [e], keep);
    SelectConcat(front, back, keep);
  }

}
