/** The neighbour table of one node, updated in place: entries expire, the greedy and the recovery
    next hop are chosen by the loops of the original, and every loop is shown to compute the
    functions of module Neighbors on the live entries. */
module PositionTable {
  import opened Types
  import opened Geometry
  import opened Directions
  import opened Neighbors

  datatype Entry = Entry(pos: Point, updated: Time)

  type Table = map<Addr, Entry>

  /** The zero address counts as updated at time 0, whatever its entry says. */
  function UpdateTime(table: Table, id: Addr): Time
    requires id in table
  {
    if id == NO_ADDR then 0 else table[id].updated
  }

  predicate Expired(table: Table, lifeTime: Time, now: Time, id: Addr)
    requires id in table
  {
    lifeTime + UpdateTime(table, id) <= now
  }

  /** The entries that are still valid. */
  function Live(table: Table, lifeTime: Time, now: Time): Table {
    map id | id in table && !Expired(table, lifeTime, now, id) :: table[id]
  }

  function Positions(table: Table): map<Addr, Point> {
    map id | id in table :: table[id].pos
  }

  /** What a HELLO enters lives for less than the lifetime; at the zero address, counted from time 0. */
  lemma HelloLivesExactly(table: Table, lifeTime: Time, id: Addr, pos: Point, now: Time, later: Time)
    ensures var live := Live(table[id := Entry(pos, now)], lifeTime, later);
            && (id in live <==> later < lifeTime + if id == NO_ADDR then 0 else now)
            && (id in live ==> live[id].pos == pos)
            && live - {id} == Live(table, lifeTime, later) - {id}
  {
  }

  /** The live neighbour positions, in address order. */
  function LiveList(table: Table, lifeTime: Time, now: Time): seq<Neighbor> {
    Listed(Positions(Live(table, lifeTime, now)))
  }

  // ---------- the loops, on the values they walk over ----------

  /** The expired ones among the keys, most recently found first. */
  function ExpiredAmong(table: Table, lifeTime: Time, now: Time, keys: seq<Addr>): seq<Addr>
    requires forall k :: k in keys ==> k in table
  {
    if keys == [] then []
    else
      var last := keys[|keys| - 1];
      var found := ExpiredAmong(table, lifeTime, now, keys[..|keys| - 1]);
      if Expired(table, lifeTime, now, last) then [last] + found else found
  }

  function Without(table: Table, ids: seq<Addr>): Table {
    if ids == [] then table else Without(table, ids[..|ids| - 1]) - {ids[|ids| - 1]}
  }

  lemma {:induction false} ExpiredAmongMembers(table: Table, lifeTime: Time, now: Time, keys: seq<Addr>)
    requires forall k :: k in keys ==> k in table
    ensures forall id :: id in ExpiredAmong(table, lifeTime, now, keys) <==>
              id in keys && Expired(table, lifeTime, now, id)
  {
    if keys != [] {
      var n := |keys| - 1;
      ExpiredAmongMembers(table, lifeTime, now, keys[..n]);
      assert forall id :: id in keys <==> id in keys[..n] || id == keys[n];
    }
  }

  lemma {:induction false} WithoutMembers(table: Table, ids: seq<Addr>)
    ensures Without(table, ids) == map id | id in table && id !in ids :: table[id]
  {
    if ids != [] {
      var n := |ids| - 1;
      WithoutMembers(table, ids[..n]);
      assert forall id :: id in ids <==> id in ids[..n] || id == ids[n];
    }
  }

  /** Erasing the expired keys one by one leaves the live entries. */
  lemma ErasingLeavesLive(table: Table, lifeTime: Time, now: Time, keys: seq<Addr>)
    requires forall k :: k in keys <==> k in table
    ensures Without(table, ExpiredAmong(table, lifeTime, now, keys)) == Live(table, lifeTime, now)
  {
    ExpiredAmongMembers(table, lifeTime, now, keys);
    WithoutMembers(table, ExpiredAmong(table, lifeTime, now, keys));
  }

  function LiveAmong(table: Table, lifeTime: Time, now: Time, keys: seq<Addr>): seq<Neighbor>
    requires forall k :: k in keys ==> k in table
  {
    if keys == [] then []
    else
      var last := keys[|keys| - 1];
      var found := LiveAmong(table, lifeTime, now, keys[..|keys| - 1]);
      if Expired(table, lifeTime, now, last) then found else found + [Neighbor(last, table[last].pos)]
  }

  /** The first loop of Purge. */
  method CollectExpired(table: Table, lifeTime: Time, now: Time, keys: seq<Addr>) returns (toErase: seq<Addr>)
    requires forall k :: k in keys ==> k in table
    ensures toErase == ExpiredAmong(table, lifeTime, now, keys)
  {
    toErase := [];
    for k := 0 to |keys|
      invariant toErase == ExpiredAmong(table, lifeTime, now, keys[..k])
    {
      assert keys[..k + 1][..k] == keys[..k];
      if Expired(table, lifeTime, now, keys[k]) {
        toErase := [keys[k]] + toErase;
      }
    }
    assert keys[..|keys|] == keys;
  }

  /** The first loop of GetNeighbors. */
  method SortOut(table: Table, lifeTime: Time, now: Time, keys: seq<Addr>)
    returns (toErase: seq<Addr>, neighbors: seq<Neighbor>)
    requires forall k :: k in keys ==> k in table
    ensures toErase == ExpiredAmong(table, lifeTime, now, keys)
    ensures neighbors == LiveAmong(table, lifeTime, now, keys)
  {
    toErase, neighbors := [], [];
    for k := 0 to |keys|
      invariant toErase == ExpiredAmong(table, lifeTime, now, keys[..k])
      invariant neighbors == LiveAmong(table, lifeTime, now, keys[..k])
    {
      assert keys[..k + 1][..k] == keys[..k];
      if Expired(table, lifeTime, now, keys[k]) {
        toErase := [keys[k]] + toErase;
      } else {
        neighbors := neighbors + [Neighbor(keys[k], table[keys[k]].pos)];
      }
    }
    assert keys[..|keys|] == keys;
  }

  /** The minimisation loop of BestNeighbor. */
  method FindClosest(list: seq<Neighbor>, dest: Point) returns (bestFoundId: Addr, bestFoundDistance: int)
    requires list != []
    ensures bestFoundId == Closest(list, dest).id && bestFoundDistance == Dist2(Closest(list, dest).pos, dest)
  {
    ghost var best := list[0];
    bestFoundId, bestFoundDistance := list[0].id, SquaredDistance(list[0].pos, dest);
    for i := 0 to |list|
      invariant best == if i == 0 then list[0] else Closest(list[..i], dest)
      invariant bestFoundId == best.id && bestFoundDistance == Dist2(best.pos, dest)
    {
      var distance := SquaredDistance(list[i].pos, dest);
      ClosestStep(list, dest, i, best);
      if bestFoundDistance > distance {
        best := list[i];
        bestFoundId := list[i].id;
        bestFoundDistance := distance;
      }
    }
    assert list[..|list|] == list;
  }

  lemma ClosestStep(list: seq<Neighbor>, dest: Point, i: nat, best: Neighbor)
    requires i < |list| && best == if i == 0 then list[0] else Closest(list[..i], dest)
    ensures Closest(list[..i + 1], dest) == if Dist2(best.pos, dest) > Dist2(list[i].pos, dest) then list[i] else best
  {
    assert list[..i + 1][..i] == list[..i];
  }

  /** The inner loop of the two planarisation tests: no other neighbour is a witness against a. */
  method EdgeIsValid(graph: U8, list: seq<Neighbor>, here: Point, a: Neighbor) returns (edgeValid: bool)
    requires graph == GRAPH_GABRIEL || graph == GRAPH_RNG
    ensures edgeValid <==> !Pruned(graph, list, here, a)
  {
    edgeValid := true;
    var j := 0;
    while j < |list|
      invariant 0 <= j <= |list|
      invariant edgeValid && !Pruned(graph, list[..j], here, a)
    {
      var b := list[j];
      if b.id != a.id {
        var against := WitnessTest(graph, here, a.pos, b.pos);
        if against {
          edgeValid := false;
          assert Pruned(graph, list, here, a);
          break;
        }
      }
      assert list[..j + 1] == list[..j] + [b];
      j := j + 1;
    }
    assert list[..|list|] == list;
  }

  /** The distance comparisons of one test. */
  method WitnessTest(graph: U8, here: Point, a: Point, b: Point) returns (against: bool)
    requires graph == GRAPH_GABRIEL || graph == GRAPH_RNG
    ensures against <==> Witness(graph, here, a, b)
  {
    if graph == GRAPH_GABRIEL {
      against := PowerOf(b, here, a) < 0;
    } else {
      var dNA, dNB, dAB := SquaredDistance(here, a), SquaredDistance(here, b), SquaredDistance(a, b);
      against := dAB < if dNA < dNB then dNB else dNA;
    }
  }

  /** The outer loop of GetGabrielNeighbors and GetRngNeighbors. */
  method FilterValid(graph: U8, list: seq<Neighbor>, here: Point) returns (kept: seq<Neighbor>)
    requires graph == GRAPH_GABRIEL || graph == GRAPH_RNG
    ensures kept == PlanarNeighbors(graph, list, here)
  {
    kept := [];
    for i := 0 to |list|
      invariant kept == KeptUpTo(graph, list, here, i)
    {
      if list[i].pos != here {
        var edgeValid := EdgeIsValid(graph, list, here, list[i]);
        if edgeValid {
          kept := kept + [list[i]];
        }
      }
    }
  }

  /** The comparison made for each neighbour: is this turn, not 0, smaller than the best so far? */
  predicate Improves(r: Vec, turn: Vec, bestFoundIs360: bool, bestFound: Vec) {
    (bestFoundIs360 || IsSmallerTurn(r, turn, bestFound)) && TurnSector(r, turn) != 0
  }

  lemma FirstTurnStep(r: Vec, here: Point, list: seq<Neighbor>, i: nat, best: Option<Neighbor>, bestFound: Vec)
    requires i < |list| && best == FirstTurn(r, here, list[..i])
    requires best.Some? ==> bestFound == Heading(here, best.value.pos)
    ensures FirstTurn(r, here, list[..i + 1])
            == if Improves(r, Heading(here, list[i].pos), best.None?, bestFound) then Some(list[i]) else best
  {
    assert list[..i + 1][..i] == list[..i];
  }

  /** The address of the neighbour reached first, if there is one. */
  ghost function FirstTurnId(r: Vec, here: Point, list: seq<Neighbor>): Addr {
    match FirstTurn(r, here, list)
    case None => NO_ADDR
    case Some(nb) => nb.id
  }

  /** The angle loop of BestAngle. */
  method ScanTurns(neighbors: seq<Neighbor>, here: Point, r: Vec) returns (bestFoundId: Addr)
    ensures bestFoundId == FirstTurnId(r, here, neighbors)
  {
    var bestFound, bestFoundIs360 := Vec(0, 0), true;
    ghost var best: Option<Neighbor> := None;
    bestFoundId := NO_ADDR;
    for i := 0 to |neighbors|
      invariant best == FirstTurn(r, here, neighbors[..i])
      invariant bestFoundIs360 <==> best.None?
      invariant bestFoundId == if best.None? then NO_ADDR else best.value.id
      invariant best.Some? ==> bestFound == Heading(here, best.value.pos)
    {
      FirstTurnStep(r, here, neighbors, i, best, bestFound);
      var turn := Heading(here, neighbors[i].pos);
      var improved := Improves(r, turn, bestFoundIs360, bestFound);
      if improved {
        bestFoundId, bestFound, bestFoundIs360 := neighbors[i].id, turn, false;
        best := Some(neighbors[i]);
      }
    }
    assert neighbors[..|neighbors|] == neighbors;
  }

  /** The choice of BestAngle, with its fallback to the first neighbour. */
  method FindFirstTurn(neighbors: seq<Neighbor>, here: Point, prev: Point) returns (id: Addr)
    requires neighbors != [] && InAddressOrder(neighbors)
    ensures id == RightHand(neighbors, here, prev)
  {
    id := ScanTurns(neighbors, here, Heading(here, prev));
    if id == NO_ADDR {
      id := neighbors[0].id;
    }
  }

  // ---------- the table ----------

  class NeighborTable {
    var lifeTime: Time
    var graphType: U8
    var table: Table

    constructor (entryTime: Time, graph: U8)
      ensures lifeTime == entryTime && graphType == graph && table == map[]
    {
      lifeTime, graphType, table := entryTime, graph, map[];
    }

    /** A HELLO refreshes its sender's entry or creates it. */
    method AddEntry(id: Addr, pos: Point, now: Time)
      modifies this`table
      ensures table == old(table)[id := Entry(pos, now)]
    {
      if id in table {
        table := table - {id};
        table := table[id := Entry(pos, now)];
        return;
      }
      table := table[id := Entry(pos, now)];
    }

    method IsNeighbor(id: Addr) returns (known: bool)
      ensures known <==> id in table
    {
      known := id in table;
    }

    /** Exactly the expired entries go. */
    method Purge(now: Time)
      modifies this`table
      ensures table == Live(old(table), lifeTime, now)
    {
      ghost var before := table;
      if table == map[] {
        return;
      }
      var keys := Ascending(table.Keys);
      AscendingListsTheSet(table.Keys);
      assert forall k :: k in keys <==> k in table.Keys;
      var toErase := CollectExpired(table, lifeTime, now, keys);
      EraseAll(toErase);
      ErasingLeavesLive(before, lifeTime, now, keys);
    }

    method EraseAll(toErase: seq<Addr>)
      modifies this`table
      ensures table == Without(old(table), toErase)
    {
      for j := 0 to |toErase|
        invariant table == Without(old(table), toErase[..j])
      {
        assert toErase[..j + 1][..j] == toErase[..j];
        table := table - {toErase[j]};
      }
      assert toErase[..|toErase|] == toErase;
    }

    /** Greedy: the lowest-address live neighbour among those closest to the destination, if it is
        closer than this node. */
    method BestNeighbor(dest: Point, here: Point, now: Time) returns (id: Addr)
      modifies this`table
      ensures table == Live(old(table), lifeTime, now)
      ensures id == BestNeighborOf(LiveList(old(table), lifeTime, now), dest, here)
    {
      Purge(now);
      var initialDistance := SquaredDistance(here, dest);
      if table == map[] {
        assert Positions(table) == map[];
        return NO_ADDR;
      }
      assert Positions(table).Keys == table.Keys;
      var list := Listed(Positions(table));
      var bestFoundId, bestFoundDistance := FindClosest(list, dest);
      if initialDistance > bestFoundDistance {
        return bestFoundId;
      } else {
        return NO_ADDR;
      }
    }

    /** Without planarisation: every live neighbour, co-located ones included. */
    method GetNeighbors(now: Time) returns (neighbors: seq<Neighbor>)
      modifies this`table
      ensures table == Live(old(table), lifeTime, now)
      ensures neighbors == LiveList(old(table), lifeTime, now)
    {
      ghost var before := table;
      var keys := Ascending(table.Keys);
      AscendingListsTheSet(table.Keys);
      assert forall k :: k in keys <==> k in table.Keys;
      var toErase: seq<Addr>;
      toErase, neighbors := SortOut(table, lifeTime, now, keys);
      EraseAll(toErase);
      ErasingLeavesLive(before, lifeTime, now, keys);
      LiveAmongIsLiveList(before, lifeTime, now, keys);
    }

    /** The Gabriel neighbours: no other live neighbour strictly inside the circle on the link. */
    method GetGabrielNeighbors(here: Point, now: Time) returns (kept: seq<Neighbor>)
      modifies this`table
      ensures table == Live(old(table), lifeTime, now)
      ensures kept == PlanarNeighbors(GRAPH_GABRIEL, LiveList(old(table), lifeTime, now), here)
    {
      Purge(now);
      kept := FilterValid(GRAPH_GABRIEL, Listed(Positions(table)), here);
    }

    /** The neighbours that the code's relative-neighbourhood test keeps. */
    method GetRngNeighbors(here: Point, now: Time) returns (kept: seq<Neighbor>)
      modifies this`table
      ensures table == Live(old(table), lifeTime, now)
      ensures kept == PlanarNeighbors(GRAPH_RNG, LiveList(old(table), lifeTime, now), here)
    {
      Purge(now);
      kept := FilterValid(GRAPH_RNG, Listed(Positions(table)), here);
    }

    /** Recovery: the next hop by the right-hand rule on the planarised live neighbours. An unknown
        graph type finds no neighbour, and leaves the table unpurged. */
    method BestAngle(prev: Point, here: Point, now: Time) returns (id: Addr)
      modifies this`table
      ensures table == if graphType <= GRAPH_RNG then Live(old(table), lifeTime, now) else old(table)
      ensures id == BestAngleOf(graphType, Positions(Live(old(table), lifeTime, now)), prev, here)
    {
      ghost var list := LiveList(table, lifeTime, now);
      if table == map[] {
        assert Positions(Live(table, lifeTime, now)) == map[];
        assert list == [];
        return NO_ADDR;
      }
      var neighbors: seq<Neighbor> := [];
      if graphType == GRAPH_NONE {
        neighbors := GetNeighbors(now);
        EveryoneIsKept(list, here, |list|);
      } else if graphType == GRAPH_GABRIEL {
        neighbors := GetGabrielNeighbors(here, now);
      } else if graphType == GRAPH_RNG {
        neighbors := GetRngNeighbors(here, now);
      } else {
        NobodyIsKept(graphType, list, here, |list|);
      }
      if neighbors == [] {
        return NO_ADDR;
      }
      PlanarNeighborsAreTheKept(graphType, list, here, |list|);
      id := FindFirstTurn(neighbors, here, prev);
    }
  }

  // ---------- lemmas ----------

  lemma {:induction false} LiveAmongMembers(table: Table, lifeTime: Time, now: Time, keys: seq<Addr>)
    requires forall k :: k in keys ==> k in table
    requires forall i, j :: 0 <= i < j < |keys| ==> keys[i] < keys[j]
    ensures var list := LiveAmong(table, lifeTime, now, keys);
            && InAddressOrder(list)
            && (forall nb: Neighbor :: nb in list <==>
                  nb.id in keys && !Expired(table, lifeTime, now, nb.id) && table[nb.id].pos == nb.pos)
  {
    if keys != [] {
      var n := |keys| - 1;
      LiveAmongMembers(table, lifeTime, now, keys[..n]);
      assert forall id :: id in keys <==> id in keys[..n] || id == keys[n];
      assert forall nb :: nb in LiveAmong(table, lifeTime, now, keys[..n]) ==> nb.id in keys[..n];
    }
  }

  lemma LiveAmongIsLiveList(table: Table, lifeTime: Time, now: Time, keys: seq<Addr>)
    requires forall k :: k in keys <==> k in table
    requires forall i, j :: 0 <= i < j < |keys| ==> keys[i] < keys[j]
    ensures LiveAmong(table, lifeTime, now, keys) == LiveList(table, lifeTime, now)
  {
    LiveAmongMembers(table, lifeTime, now, keys);
    SameMembersSameList(LiveAmong(table, lifeTime, now, keys), LiveList(table, lifeTime, now));
  }

  /** An address-ordered list is determined by its members. */
  lemma {:induction false} SameMembersSameList(p: seq<Neighbor>, q: seq<Neighbor>)
    requires InAddressOrder(p) && InAddressOrder(q)
    requires forall nb :: nb in p <==> nb in q
    ensures p == q
  {
    assert p != [] ==> p[0] in p;
    assert q != [] ==> q[0] in q;
    if p != [] && q != [] {
      var m, n := |p| - 1, |q| - 1;
      var a, b := p[m], q[n];
      assert a in p && b in q;
      assert a.id < b.id || a == b;
      assert b.id < a.id || a == b;
      forall nb
        ensures nb in p[..m] <==> nb in q[..n]
      {
        assert nb in p[..m] <==> nb in p && nb != a;
        assert nb in q[..n] <==> nb in q && nb != b;
        assert nb in p <==> nb in q;
      }
      SameMembersSameList(p[..m], q[..n]);
      assert p == p[..m] + [p[m]] && q == q[..n] + [q[n]];
    }
  }

  lemma {:induction false} EveryoneIsKept(list: seq<Neighbor>, here: Point, k: nat)
    requires k <= |list|
    ensures KeptUpTo(GRAPH_NONE, list, here, k) == list[..k]
    ensures PlanarNeighbors(GRAPH_NONE, list, here) == KeptUpTo(GRAPH_NONE, list, here, |list|)
    ensures k == |list| ==> KeptUpTo(GRAPH_NONE, list, here, k) == list
  {
    if k > 0 {
      EveryoneIsKept(list, here, k - 1);
      assert list[..k] == list[..k - 1] + [list[k - 1]];
    }
    assert list[..|list|] == list;
  }

  lemma {:induction false} NobodyIsKept(graph: U8, list: seq<Neighbor>, here: Point, k: nat)
    requires graph > GRAPH_RNG && k <= |list|
    ensures KeptUpTo(graph, list, here, k) == []
  {
    if k > 0 {
      NobodyIsKept(graph, list, here, k - 1);
    }
  }

}
