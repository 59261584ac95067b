/** HELLO messages as timed steps: when the tables of a static network are the unit-disc network that
    the routing results start from. */
module Beacons {
  import opened Types
  import opened PositionTable
  import opened UnitDisc

  /** The HELLO interval and the lifetime of table entries. A HELLO timer is set to the interval plus or
      minus at most half of it; the first one to at most half of it. */
  datatype Timing = Timing(interval: Time, lifeTime: Time)

  /** Who is next due when, who has been heard at least once, and everyone's table. */
  datatype World = World(now: Time, due: map<Addr, Time>, heard: set<Addr>, tables: map<Addr, Table>)

  datatype Tick =
    | Wait(until: Time)
    | Hello(sender: Addr, jitter: Time)
    | PurgeAt(node: Addr)

  ghost predicate StartsWell(net: Network, t: Timing, w: World) {
    && w.now == 0 && w.heard == {}
    && w.due.Keys == net.pos.Keys && w.tables.Keys == net.pos.Keys
    && (forall u :: u in net.pos ==> 0 <= w.due[u] && 2 * w.due[u] <= t.interval)
    && (forall v :: v in net.pos ==> w.tables[v] == map[])
  }

  /** Time passes up to the next timer; a timer fires when it is due; tables are purged at any time. */
  ghost predicate Allowed(net: Network, t: Timing, w: World, tick: Tick) {
    match tick
    case Wait(until) => w.now <= until && forall u :: u in w.due ==> until <= w.due[u]
    case Hello(u, jitter) => u in net.pos && u in w.due && w.due[u] == w.now && -t.interval <= 2 * jitter <= t.interval
    case PurgeAt(v) => v in w.tables
  }

  /** Every node in range of the sender enters its position; the sender sets its timer again. */
  ghost function Next(net: Network, t: Timing, w: World, tick: Tick): World
    requires Allowed(net, t, w, tick)
  {
    match tick
    case Wait(until) => w.(now := until)
    case Hello(u, jitter) =>
      w.(due := w.due[u := w.now + t.interval + jitter], heard := w.heard + {u},
         tables := map v | v in w.tables :: Heard(net, w.tables[v], v, u, w.now))
    case PurgeAt(v) =>
      w.(tables := w.tables[v := Live(w.tables[v], t.lifeTime, w.now)])
  }

  ghost function Heard(net: Network, table: Table, v: Addr, u: Addr, now: Time): Table {
    if v in net.pos && u in View(net, v) then table[u := Entry(View(net, v)[u], now)] else table
  }

  ghost predicate Plays(net: Network, t: Timing, w: World, ticks: seq<Tick>, end: World)
    decreases |ticks|
  {
    if ticks == [] then end == w
    else Allowed(net, t, w, ticks[0]) && Plays(net, t, Next(net, t, w, ticks[0]), ticks[1..], end)
  }

  /** Node v's live entries are exactly its unit-disc neighbours at their positions. */
  ghost predicate Exact(net: Network, t: Timing, w: World, v: Addr)
    requires v in net.pos && v in w.tables
  {
    Positions(Live(w.tables[v], t.lifeTime, w.now)) == View(net, v)
  }

  /** Every run that is past the first half interval finds every table exact. */
  ghost predicate AlwaysExact(net: Network, t: Timing) {
    forall w, ticks, end, v ::
      && StartsWell(net, t, w) && Plays(net, t, w, ticks, end)
      && t.interval < 2 * end.now && v in net.pos && v in end.tables
      ==> Exact(net, t, end, v)
  }

  // ---------- entries are always refreshed in time ----------

  /** An entry of u at v is u's true position, not older than u's latest HELLO allows. */
  ghost predicate EntryInTime(net: Network, t: Timing, w: World, v: Addr, u: Addr)
    requires v in w.tables && v in net.pos
  {
    && (u in w.tables[v] ==> u in View(net, v) && w.tables[v][u].pos == View(net, v)[u])
    && (u in w.heard && u in View(net, v) ==>
          u in w.tables[v] && u in w.due && 2 * w.due[u] <= 2 * w.tables[v][u].updated + 3 * t.interval)
  }

  ghost predicate InTime(net: Network, t: Timing, w: World) {
    OnTime(net, t, w) && forall v, u :: v in net.pos ==> EntryInTime(net, t, w, v, u)
  }

  lemma HelloKeepsEntry(net: Network, t: Timing, w: World, sender: Addr, jitter: Time, v: Addr, u: Addr)
    requires UnitDisc.Valid(net) && InTime(net, t, w) && Allowed(net, t, w, Hello(sender, jitter)) && v in net.pos
    requires EntryInTime(net, t, w, v, u)
    ensures EntryInTime(net, t, Next(net, t, w, Hello(sender, jitter)), v, u)
  {
  }

  /** What is purged has not been heard in time: whatever has been heard is refreshed before it expires. */
  lemma PurgeKeepsEntry(net: Network, t: Timing, w: World, node: Addr, v: Addr, u: Addr)
    requires UnitDisc.Valid(net) && InTime(net, t, w) && Allowed(net, t, w, PurgeAt(node)) && v in net.pos
    requires t.interval > 0 && 3 * t.interval < 2 * t.lifeTime
    requires EntryInTime(net, t, w, v, u)
    ensures EntryInTime(net, t, Next(net, t, w, PurgeAt(node)), v, u)
  {
  }

  ghost predicate OnTime(net: Network, t: Timing, w: World) {
    && w.due.Keys == net.pos.Keys && w.tables.Keys == net.pos.Keys
    && (forall u :: u in w.due ==> w.now <= w.due[u])
    && (forall u :: u in w.due && u !in w.heard ==> 2 * w.due[u] <= t.interval)
  }

  lemma NobodyIsLate(net: Network, t: Timing, w: World, tick: Tick)
    requires OnTime(net, t, w) && Allowed(net, t, w, tick) && t.interval > 0
    ensures OnTime(net, t, Next(net, t, w, tick))
  {
  }

  lemma TickKeepsInTime(net: Network, t: Timing, w: World, tick: Tick)
    requires UnitDisc.Valid(net) && InTime(net, t, w) && Allowed(net, t, w, tick)
    requires t.interval > 0 && 3 * t.interval < 2 * t.lifeTime
    ensures InTime(net, t, Next(net, t, w, tick))
  {
    forall v, u | v in net.pos
      ensures EntryInTime(net, t, Next(net, t, w, tick), v, u)
    {
      assert EntryInTime(net, t, w, v, u);
      match tick
      case Wait(_) =>
      case Hello(sender, jitter) => HelloKeepsEntry(net, t, w, sender, jitter, v, u);
      case PurgeAt(node) => PurgeKeepsEntry(net, t, w, node, v, u);
    }
    NobodyIsLate(net, t, w, tick);
  }

  lemma {:induction false} RunKeepsInTime(net: Network, t: Timing, w: World, ticks: seq<Tick>, end: World)
    requires UnitDisc.Valid(net) && InTime(net, t, w) && Plays(net, t, w, ticks, end)
    requires t.interval > 0 && 3 * t.interval < 2 * t.lifeTime
    ensures InTime(net, t, end)
    decreases |ticks|
  {
    if ticks != [] {
      TickKeepsInTime(net, t, w, ticks[0]);
      RunKeepsInTime(net, t, Next(net, t, w, ticks[0]), ticks[1..], end);
    }
  }

  lemma InTimeIsExact(net: Network, t: Timing, w: World, v: Addr)
    requires UnitDisc.Valid(net) && InTime(net, t, w) && v in net.pos
    requires 3 * t.interval < 2 * t.lifeTime && t.interval < 2 * w.now
    ensures Exact(net, t, w, v)
  {
    var live := Live(w.tables[v], t.lifeTime, w.now);
    forall u
      ensures u in View(net, v) <==> u in live
      ensures u in live ==> live[u].pos == View(net, v)[u]
    {
      assert EntryInTime(net, t, w, v, u);
      if u in View(net, v) {
        assert u in w.due && u in w.heard;
      }
    }
  }

  // ---------- otherwise some run loses a neighbour ----------

  ghost predicate EntriesFrom(net: Network, w: World, time: Time) {
    forall v, u :: v in w.tables && u in w.tables[v] ==> u in net.pos && w.tables[v][u].updated == time
  }

  lemma HelloEntersNow(net: Network, t: Timing, w: World, u: Addr, jitter: Time)
    requires Allowed(net, t, w, Hello(u, jitter)) && EntriesFrom(net, w, w.now)
    ensures EntriesFrom(net, Next(net, t, w, Hello(u, jitter)), w.now)
    ensures Next(net, t, w, Hello(u, jitter)).tables.Keys == w.tables.Keys
  {
    var after := Next(net, t, w, Hello(u, jitter));
    forall v, a | v in after.tables && a in after.tables[v]
      ensures a in net.pos && after.tables[v][a].updated == w.now
    {
      assert after.tables[v] == Heard(net, w.tables[v], v, u, w.now);
    }
  }

  /** Everyone in s, all due now, sends with the largest jitter. */
  lemma {:induction false} AllSendNow(net: Network, t: Timing, w: World, s: set<Addr>)
    returns (ticks: seq<Tick>, end: World)
    requires s <= net.pos.Keys && w.due.Keys == net.pos.Keys && t.interval > 0
    requires forall u :: u in s ==> w.due[u] == w.now
    requires forall u :: u in w.due && u !in s ==> w.due[u] == w.now + t.interval + t.interval / 2
    requires EntriesFrom(net, w, w.now)
    ensures Plays(net, t, w, ticks, end) && end.now == w.now && end.tables.Keys == w.tables.Keys
    ensures end.due.Keys == net.pos.Keys
    ensures forall u :: u in end.due ==> end.due[u] == w.now + t.interval + t.interval / 2
    ensures EntriesFrom(net, end, w.now)
    decreases |s|
  {
    if s == {} {
      ticks, end := [], w;
    } else {
      var u :| u in s;
      var tick := Hello(u, t.interval / 2);
      var after := Next(net, t, w, tick);
      HelloEntersNow(net, t, w, u, t.interval / 2);
      assert after.due == w.due[u := w.now + t.interval + t.interval / 2];
      var rest;
      rest, end := AllSendNow(net, t, after, s - {u});
      ticks := [tick] + rest;
      assert ticks[1..] == rest;
    }
  }

  lemma {:induction false} PlaysThen(net: Network, t: Timing, w: World, ticks: seq<Tick>, mid: World, tick: Tick)
    requires Plays(net, t, w, ticks, mid) && Allowed(net, t, mid, tick)
    ensures Plays(net, t, w, ticks + [tick], Next(net, t, mid, tick))
    decreases |ticks|
  {
    if ticks != [] {
      PlaysThen(net, t, Next(net, t, w, ticks[0]), ticks[1..], mid, tick);
      assert (ticks + [tick])[1..] == ticks[1..] + [tick];
    }
  }

  /** If entries live no longer than one and a half intervals, everyone may fall silent for that long. */
  lemma SilenceLosesNeighbor(net: Network, t: Timing, v: Addr, u: Addr)
    requires UnitDisc.Valid(net) && Linked(net, v, u)
    requires t.interval > 0 && 2 * t.lifeTime <= 3 * t.interval
    ensures !AlwaysExact(net, t)
  {
    var start, ticks, mid := EveryoneSendsAtOnce(net, t);
    var tick := Wait(t.interval + t.interval / 2);
    PlaysThen(net, t, start, ticks, mid, tick);
    var end := Next(net, t, mid, tick);
    OldEntriesAreInexact(net, t, end, v, u);
  }

  lemma EveryoneSendsAtOnce(net: Network, t: Timing) returns (start: World, ticks: seq<Tick>, mid: World)
    requires t.interval > 0
    ensures StartsWell(net, t, start) && Plays(net, t, start, ticks, mid)
    ensures mid.now == 0 && mid.tables.Keys == net.pos.Keys && EntriesFrom(net, mid, 0)
    ensures forall u :: u in mid.due ==> mid.due[u] == t.interval + t.interval / 2
  {
    start := World(0, map a | a in net.pos :: 0, {}, map a | a in net.pos :: map[]);
    ticks, mid := AllSendNow(net, t, start, net.pos.Keys);
  }

  lemma OldEntriesAreInexact(net: Network, t: Timing, w: World, v: Addr, u: Addr)
    requires UnitDisc.Valid(net) && Linked(net, v, u) && v in w.tables && EntriesFrom(net, w, 0)
    requires t.lifeTime <= w.now
    ensures !Exact(net, t, w, v)
  {
    assert u in View(net, v);
    assert u !in Live(w.tables[v], t.lifeTime, w.now);
  }

  /** In a static network with at least one link, every table is exact in every run once half an
      interval has passed, if and only if entries live longer than one and a half HELLO intervals. */
  lemma TablesAreExactIff(net: Network, t: Timing, v: Addr, u: Addr)
    requires UnitDisc.Valid(net) && t.interval > 0 && Linked(net, v, u)
    ensures AlwaysExact(net, t) <==> 3 * t.interval < 2 * t.lifeTime
  {
    if 3 * t.interval < 2 * t.lifeTime {
      forall w, ticks, end, a |
        && StartsWell(net, t, w) && Plays(net, t, w, ticks, end)
        && t.interval < 2 * end.now && a in net.pos && a in end.tables
        ensures Exact(net, t, end, a)
      {
        RunKeepsInTime(net, t, w, ticks, end);
        InTimeIsExact(net, t, end, a);
      }
    } else {
      SilenceLosesNeighbor(net, t, v, u);
    }
  }
}
