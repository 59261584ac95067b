/** What finally becomes of a packet: it is delivered, or it circulates for ever on one cycle of links. */
module Fates {
  import opened Types
  import opened Veils
  import opened Geometry
  import opened Neighbors
  import opened UnitDisc
  import opened Cycles
  import opened FaceWalk
  import opened Runs

  /** The packet is in recovery and came over the kept link e. */
  ghost predicate OnLink(sc: Scene, s: Hop, e: Edge) {
    && IsEdge(sc.net, e) && e.head == s.at
    && s.hdr.inRec == 1 && s.hdr.last == sc.net.pos[e.tail]
  }

  ghost predicate HasNeighbor(net: Network, a: Addr) {
    exists b :: Linked(net, a, b)
  }

  /** States from which a run proceeds: greedy at a node with a neighbour, or recovery on a real link. */
  ghost predicate Good(sc: Scene, D: Point, s: Hop) {
    && sc.graph == GRAPH_GABRIEL && Valid(sc.net)
    && s.at in sc.net.pos && Agreed(sc, D, s)
    && HasNeighbor(sc.net, s.at)
    && (s.hdr.inRec == 1 ==> exists e :: OnLink(sc, s, e))
  }

  /** The walk is over at s: it has arrived, or this node is closer than the recovery point. */
  ghost predicate Ends(sc: Scene, s: Hop)
    requires s.at in sc.net.pos
  {
    s.at == sc.dst || Leaves(sc, s)
  }

  // ---------- one hop ----------

  /** A node with a neighbour in range always has a planar one that lies elsewhere. */
  lemma NeighborMeansAdjacent(net: Network, a: Addr)
    requires Valid(net) && a in net.pos && HasNeighbor(net, a)
    ensures Adjacent(net, a) != []
  {
    AdjacentIsPlanar(net, a);
    var b :| Linked(net, a, b);
    assert Neighbor(b, net.pos[b]) in Listed(View(net, a));
    GabrielEmptyIffCoLocated(Listed(View(net, a)), net.pos[a]);
  }

  /** Staying in recovery takes the next link of the face walk. */
  lemma RecoveryHopFollowsWalk(sc: Scene, D: Point, s: Hop, e: Edge)
    requires Good(sc, D, s) && OnLink(sc, s, e) && !Ends(sc, s)
    ensures Decide(sc, s).Transmit?
    ensures var f := NextEdge(sc.net, e);
            IsEdge(sc.net, f) && Advance(sc, s) == Hop(f.head, s.hdr.(last := sc.net.pos[f.tail]))
  {
    BestAngleIsRightHand(sc.net, s.at, s.hdr.last);
    DecideIsRuling(sc, s);
    NextEdgeIsEdge(sc.net, e);
    NeighborMeansAdjacent(sc.net, s.at);
  }

  /** Entering recovery takes a first real link. */
  lemma FirstRecoveryLink(sc: Scene, a: Addr, prev: Point)
    requires Valid(sc.net) && a in sc.net.pos && HasNeighbor(sc.net, a)
    ensures var nextHop := BestAngleOf(GRAPH_GABRIEL, View(sc.net, a), prev, sc.net.pos[a]);
            nextHop != NO_ADDR && KeptLink(sc.net, GRAPH_GABRIEL, a, nextHop)
  {
    BestAngleIsRightHand(sc.net, a, prev);
    NeighborMeansAdjacent(sc.net, a);
    AdjacentAreKeptLinks(sc.net, a);
    var chosen := RightHandRule(Adjacent(sc.net, a), sc.net.pos[a], prev);
  }

  /** From a good state the packet always moves on, to a good state. */
  lemma GoodMovesOn(sc: Scene, D: Point, s: Hop)
    requires Good(sc, D, s) && s.at != sc.dst
    ensures Decide(sc, s).Transmit? && Good(sc, D, Advance(sc, s))
  {
    if s.hdr.inRec == 1 && !Ends(sc, s) {
      var e :| OnLink(sc, s, e);
      RecoveryHopFollowsWalk(sc, D, s, e);
      assert OnLink(sc, Advance(sc, s), NextEdge(sc.net, e));
    } else {
      EnteredOnLink(sc, D, s);
    }
    HopAndPotential(sc, D, s);
    LinkBothWays(sc.net, s.at, Advance(sc, s).at);
  }

  lemma EnteredOnLink(sc: Scene, D: Point, s: Hop)
    requires Good(sc, D, s) && s.at != sc.dst
    requires s.hdr.inRec == 0 || Ends(sc, s)
    ensures Decide(sc, s).Transmit?
    ensures var t := Advance(sc, s);
            t.hdr.inRec == 1 ==> OnLink(sc, t, Edge(s.at, t.at))
  {
    DecideIsRuling(sc, s);
    FirstRecoveryLink(sc, s.at, D);
  }

  lemma {:induction false} GoodForever(sc: Scene, D: Point, s: Hop, k: nat)
    requires Good(sc, D, s)
    ensures Good(sc, D, After(sc, s, k))
  {
    NextAfter(sc, s, if k == 0 then 0 else k - 1);
    if k > 0 {
      GoodForever(sc, D, s, k - 1);
      if After(sc, s, k - 1).at != sc.dst {
        GoodMovesOn(sc, D, After(sc, s, k - 1));
      }
    }
  }

  // ---------- the walk of one recovery episode ----------

  /** Where the face walk has taken the packet after j hops, if it has not ended before. */
  ghost function WalkState(sc: Scene, s: Hop, e: Edge, j: nat): Hop {
    var f := Iterate(Walk(sc.net), e, j);
    Hop(f.head, if f.tail in sc.net.pos then s.hdr.(last := sc.net.pos[f.tail]) else s.hdr)
  }

  lemma WalkStateOnLink(sc: Scene, D: Point, s: Hop, e: Edge, j: nat)
    requires Good(sc, D, s) && OnLink(sc, s, e)
    ensures OnLink(sc, WalkState(sc, s, e, j), Iterate(Walk(sc.net), e, j))
    ensures Good(sc, D, WalkState(sc, s, e, j))
  {
    WalkStaysOnLinks(sc.net, e, j);
    OnAnyLink(sc, D, s, Iterate(Walk(sc.net), e, j));
  }

  /** The same episode, carried to any other kept link, is a good state too. */
  lemma OnAnyLink(sc: Scene, D: Point, s: Hop, f: Edge)
    requires Good(sc, D, s) && s.hdr.inRec == 1 && IsEdge(sc.net, f)
    ensures var t := Hop(f.head, s.hdr.(last := sc.net.pos[f.tail]));
            OnLink(sc, t, f) && Good(sc, D, t)
  {
    LinkBothWays(sc.net, f.tail, f.head);
    assert OnLink(sc, Hop(f.head, s.hdr.(last := sc.net.pos[f.tail])), f);
  }

  lemma LinkBothWays(net: Network, a: Addr, b: Addr)
    requires Linked(net, a, b)
    ensures Linked(net, b, a)
  {
    DistanceBasics(net.pos[a], net.pos[b]);
  }

  /** No node among the first k of the walk is the destination or closer to it than the recovery point. */
  ghost predicate EndlessUpTo(sc: Scene, s: Hop, e: Edge, k: nat) {
    forall j: nat :: j < k ==> NotYetOver(sc, s, e, j)
  }

  ghost predicate NotYetOver(sc: Scene, s: Hop, e: Edge, j: nat) {
    WalkState(sc, s, e, j).at in sc.net.pos && !Ends(sc, WalkState(sc, s, e, j))
  }

  lemma RunFollowsWalk(sc: Scene, D: Point, s: Hop, e: Edge, k: nat)
    requires Good(sc, D, s) && OnLink(sc, s, e) && EndlessUpTo(sc, s, e, k)
    ensures After(sc, s, k) == WalkState(sc, s, e, k)
  {
    forall j | 0 <= j < k
      ensures LeadsOn(Onward(sc), WalkStates(sc, s, e), j)
    {
      assert NotYetOver(sc, s, e, j);
      WalkStatesLeadOn(sc, D, s, e, j);
    }
    IterateFollows(Onward(sc), WalkStates(sc, s, e), k);
    IterateStep(Walk(sc.net), e, 0);
    LookUp<nat, Hop>((i: nat) => WalkState(sc, s, e, i), 0);
    LookUp<nat, Hop>((i: nat) => WalkState(sc, s, e, i), k);
  }

  ghost function WalkStates(sc: Scene, s: Hop, e: Edge): nat -> Hop {
    Veiled<nat, Hop>((i: nat) => WalkState(sc, s, e, i))
  }

  lemma WalkStatesLeadOn(sc: Scene, D: Point, s: Hop, e: Edge, j: nat)
    requires Good(sc, D, s) && OnLink(sc, s, e) && NotYetOver(sc, s, e, j)
    ensures LeadsOn(Onward(sc), WalkStates(sc, s, e), j)
  {
    StepFollowsWalk(sc, D, s, e, j);
    LookUp<nat, Hop>((i: nat) => WalkState(sc, s, e, i), j);
    LookUp<nat, Hop>((i: nat) => WalkState(sc, s, e, i), j + 1);
  }

  lemma StepFollowsWalk(sc: Scene, D: Point, s: Hop, e: Edge, j: nat)
    requires Good(sc, D, s) && OnLink(sc, s, e) && NotYetOver(sc, s, e, j)
    ensures Advance(sc, WalkState(sc, s, e, j)) == WalkState(sc, s, e, j + 1)
  {
    WalkStateOnLink(sc, D, s, e, j);
    RecoveryHopFollowsWalk(sc, D, WalkState(sc, s, e, j), Iterate(Walk(sc.net), e, j));
    NextEdgeIsEdge(sc.net, Iterate(Walk(sc.net), e, j));
    IterateStep(Walk(sc.net), e, j);
  }

  /** The packet repeats itself every p hops, for ever inside one recovery episode, never arriving. */
  ghost predicate CirculatesWith(sc: Scene, s: Hop, p: nat) {
    && 1 <= p <= |Edges(sc.net)|
    && (forall j: nat :: SameAfter(sc, s, p, j))
    && (forall j: nat :: StillLost(sc, s, After(sc, s, j)))
  }

  ghost predicate SameAfter(sc: Scene, s: Hop, p: nat, j: nat) {
    After(sc, s, j + p) == After(sc, s, j)
  }

  ghost predicate StillLost(sc: Scene, s: Hop, t: Hop) {
    t.at != sc.dst && t.hdr.inRec == 1 && t.hdr.rec == s.hdr.rec && t.hdr.dst == s.hdr.dst
  }

  ghost predicate Circulates(sc: Scene, s: Hop) {
    exists p :: CirculatesWith(sc, s, p)
  }

  lemma EndlessRoundIsEndless(sc: Scene, D: Point, s: Hop, e: Edge, p: nat, k: nat)
    requires Good(sc, D, s) && OnLink(sc, s, e) && p >= 1
    requires forall i: nat :: RepeatsAfter(sc.net, e, p, i)
    requires EndlessUpTo(sc, s, e, p)
    ensures NotYetOver(sc, s, e, k)
    decreases k
  {
    if k >= p {
      EndlessRoundIsEndless(sc, D, s, e, p, k - p);
      assert RepeatsAfter(sc.net, e, p, k - p);
      assert WalkState(sc, s, e, k) == WalkState(sc, s, e, k - p);
    }
  }

  lemma EndlessRoundIsWalked(sc: Scene, D: Point, s: Hop, e: Edge, p: nat, k: nat)
    requires Good(sc, D, s) && OnLink(sc, s, e) && p >= 1
    requires forall i: nat :: RepeatsAfter(sc.net, e, p, i)
    requires EndlessUpTo(sc, s, e, p)
    ensures After(sc, s, k) == WalkState(sc, s, e, k) && NotYetOver(sc, s, e, k)
  {
    forall j: nat
      ensures NotYetOver(sc, s, e, j)
    {
      EndlessRoundIsEndless(sc, D, s, e, p, j);
    }
    RunFollowsWalk(sc, D, s, e, k);
  }

  lemma EndlessRoundRepeats(sc: Scene, D: Point, s: Hop, e: Edge, p: nat, j: nat)
    requires Good(sc, D, s) && OnLink(sc, s, e) && p >= 1
    requires forall i: nat :: RepeatsAfter(sc.net, e, p, i)
    requires EndlessUpTo(sc, s, e, p)
    ensures SameAfter(sc, s, p, j)
  {
    EndlessRoundIsWalked(sc, D, s, e, p, j);
    EndlessRoundIsWalked(sc, D, s, e, p, j + p);
    assert RepeatsAfter(sc.net, e, p, j);
  }

  lemma EndlessRoundStaysLost(sc: Scene, D: Point, s: Hop, e: Edge, p: nat, j: nat)
    requires Good(sc, D, s) && OnLink(sc, s, e) && p >= 1
    requires forall i: nat :: RepeatsAfter(sc.net, e, p, i)
    requires EndlessUpTo(sc, s, e, p)
    ensures StillLost(sc, s, After(sc, s, j))
  {
    EndlessRoundIsWalked(sc, D, s, e, p, j);
  }

  /** A round of the face without an exit is the first of infinitely many. */
  lemma EndlessRoundCirculates(sc: Scene, D: Point, s: Hop, e: Edge, p: nat)
    requires Good(sc, D, s) && OnLink(sc, s, e)
    requires 1 <= p <= |Edges(sc.net)|
    requires forall i: nat :: RepeatsAfter(sc.net, e, p, i)
    requires EndlessUpTo(sc, s, e, p)
    ensures CirculatesWith(sc, s, p)
  {
    forall j: nat
      ensures SameAfter(sc, s, p, j)
    {
      EndlessRoundRepeats(sc, D, s, e, p, j);
    }
    forall j: nat
      ensures StillLost(sc, s, After(sc, s, j))
    {
      EndlessRoundStaysLost(sc, D, s, e, p, j);
    }
  }

  /** The first place on the walk where it is over. */
  lemma {:induction false} FirstEnd(sc: Scene, s: Hop, e: Edge, p: nat) returns (i: nat)
    requires !EndlessUpTo(sc, s, e, p)
    ensures i < p && EndlessUpTo(sc, s, e, i) && !NotYetOver(sc, s, e, i)
  {
    if EndlessUpTo(sc, s, e, p - 1) {
      i := p - 1;
    } else {
      i := FirstEnd(sc, s, e, p - 1);
    }
  }

  /** Exactly when a recovery walk is a trap: no node on its face cycle is the destination or lies
      closer to it than the point where recovery began. */
  lemma TrappedIff(sc: Scene, D: Point, s: Hop, e: Edge)
    requires Good(sc, D, s) && OnLink(sc, s, e)
    ensures Circulates(sc, s) <==> forall j: nat :: NotYetOver(sc, s, e, j)
  {
    var p := WalkIsPeriodic(sc.net, e);
    if EndlessUpTo(sc, s, e, p) {
      EndlessRoundCirculates(sc, D, s, e, p);
      forall j: nat
        ensures NotYetOver(sc, s, e, j)
      {
        EndlessRoundIsEndless(sc, D, s, e, p, j);
      }
    } else {
      var i := FirstEnd(sc, s, e, p);
      RunFollowsWalk(sc, D, s, e, i);
      WalkStateOnLink(sc, D, s, e, i);
      EndingIsNotLost(sc, D, s, i);
    }
  }

  lemma EndingIsNotLost(sc: Scene, D: Point, s: Hop, i: nat)
    requires Good(sc, D, s) && Good(sc, D, After(sc, s, i)) && Ends(sc, After(sc, s, i))
    ensures !Circulates(sc, s)
  {
    if p: nat :| CirculatesWith(sc, s, p) {
      NextAfter(sc, s, i);
      assert StillLost(sc, s, After(sc, s, i)) && StillLost(sc, s, After(sc, s, i + 1));
      LeavingChangesRecoveryPoint(sc, D, After(sc, s, i));
    }
  }

  lemma LeavingChangesRecoveryPoint(sc: Scene, D: Point, s: Hop)
    requires Good(sc, D, s) && s.at != sc.dst && Ends(sc, s)
    ensures Advance(sc, s).hdr.inRec == 0 || Advance(sc, s).hdr.rec != s.hdr.rec
  {
    GoodMovesOn(sc, D, s);
    HopAndPotential(sc, D, s);
  }

  // ---------- the dichotomy ----------

  lemma SomeLink(net: Network, a: Addr)
    requires Valid(net) && a in net.pos && HasNeighbor(net, a)
    ensures |Edges(net)| >= 1
  {
    NeighborMeansAdjacent(net, a);
    AdjacentAreKeptLinks(net, a);
    var nb := Adjacent(net, a)[0];
    assert nb in Adjacent(net, a);
    assert Edge(a, nb.id) in Edges(net);
  }

  ghost function Laps(count: nat, length: nat): nat {
    if count == 0 then 0 else Laps(count - 1, length) + length
  }

  lemma {:induction false} FewerLaps(low: nat, high: nat, length: nat)
    requires low < high
    ensures Laps(low, length) + length <= Laps(high, length)
  {
    if low < high - 1 {
      FewerLaps(low, high - 1, length);
    }
  }

  lemma {:induction false} LapsMultiply(count: nat, length: nat)
    ensures Laps(count, length) == count * length
  {
    if count > 0 {
      LapsMultiply(count - 1, length);
    }
  }

  /** The number of nodes closer to the destination than the packet's potential. */
  ghost function Ahead(sc: Scene, s: Hop): nat {
    if s.at in sc.net.pos then Rank(sc.net, s.hdr.dst, Potential(sc, s)) else 0
  }

  /** How many hops a packet can make before its fate is settled: for every node ahead once around a
      face and a hop more, and as much again to start with. */
  ghost function HopBudget(sc: Scene): Hop -> nat {
    var links := |Edges(sc.net)|;
    (s: Hop) => Laps(Ahead(sc, s), links + 1) + (if s.hdr.inRec == 1 then links else links + 1)
  }

  /** A recovery episode can only be followed by a lower potential; a greedy hop by an episode at the same one. */
  ghost function Level(sc: Scene): Hop -> nat {
    (s: Hop) => 2 * Ahead(sc, s) + (if s.hdr.inRec == 1 then 0 else 1)
  }

  ghost function IsGood(sc: Scene, D: Point): Hop -> bool {
    (s: Hop) => Good(sc, D, s)
  }

  ghost function IsSettled(sc: Scene): Hop -> bool {
    (s: Hop) => s.at == sc.dst || Circulates(sc, s)
  }

  /** A hop that is greedy or enters recovery anew, and does not deliver, lowers the potential, or
      starts the first episode at the same potential. */
  lemma HopGetsAhead(sc: Scene, D: Point, s: Hop)
    requires Good(sc, D, s) && s.at != sc.dst && Advance(sc, s).at != sc.dst
    requires s.hdr.inRec == 0 || Ends(sc, s)
    ensures Good(sc, D, Advance(sc, s))
    ensures || Ahead(sc, Advance(sc, s)) < Ahead(sc, s)
            || (Ahead(sc, Advance(sc, s)) == Ahead(sc, s) && s.hdr.inRec == 0 && Advance(sc, s).hdr.inRec == 1)
  {
    var t := Advance(sc, s);
    GoodMovesOn(sc, D, s);
    HopAndPotential(sc, D, s);
    if Potential(sc, t) < Potential(sc, s) {
      if t.hdr.inRec == 0 {
        RankDrops(sc.net, D, t.at, Potential(sc, s));
      } else {
        RankDrops(sc.net, D, s.at, Potential(sc, s));
      }
    }
  }

  /** The same on the scale of levels and budgets. */
  lemma HopPaysItsWay(sc: Scene, D: Point, s: Hop)
    requires Good(sc, D, s) && s.at != sc.dst && Advance(sc, s).at != sc.dst
    requires s.hdr.inRec == 0 || Ends(sc, s)
    ensures IsGood(sc, D)(Advance(sc, s))
    ensures Level(sc)(Advance(sc, s)) < Level(sc)(s)
    ensures HopBudget(sc)(Advance(sc, s)) + (if s.hdr.inRec == 1 then |Edges(sc.net)| else 1) <= HopBudget(sc)(s)
  {
    HopGetsAhead(sc, D, s);
    AheadIsCheaper(sc, s, Advance(sc, s));
  }

  lemma AheadIsCheaper(sc: Scene, s: Hop, t: Hop)
    requires Ahead(sc, t) < Ahead(sc, s)
             || (Ahead(sc, t) == Ahead(sc, s) && s.hdr.inRec == 0 && t.hdr.inRec == 1)
    requires s.hdr.inRec <= 1
    ensures Level(sc)(t) < Level(sc)(s)
    ensures HopBudget(sc)(t) + (if s.hdr.inRec == 1 then |Edges(sc.net)| else 1) <= HopBudget(sc)(s)
  {
    if Ahead(sc, t) < Ahead(sc, s) {
      FewerLaps(Ahead(sc, t), Ahead(sc, s), |Edges(sc.net)| + 1);
    }
  }

  ghost predicate MakesProgress(sc: Scene, D: Point, s: Hop) {
    Progresses(Onward(sc), IsGood(sc, D), IsSettled(sc), Level(sc), HopBudget(sc), s)
  }

  /** After i hops at t: the packet's fate is settled, or it has got on, within the budget of s. */
  ghost predicate GotOn(sc: Scene, D: Point, s: Hop, i: nat, t: Hop) {
    || (IsSettled(sc)(t) && i <= HopBudget(sc)(s))
    || (IsGood(sc, D)(t) && Level(sc)(t) < Level(sc)(s) && i + HopBudget(sc)(t) <= HopBudget(sc)(s))
  }

  lemma GettingOnIsProgress(sc: Scene, D: Point, s: Hop, i: nat)
    requires GotOn(sc, D, s, i, After(sc, s, i))
    ensures MakesProgress(sc, D, s)
  {
    assert Improves(Onward(sc), IsGood(sc, D), IsSettled(sc), Level(sc), HopBudget(sc), s, i);
  }

  lemma HopMakesProgress(sc: Scene, D: Point, s: Hop)
    requires Good(sc, D, s) && s.at != sc.dst
    requires s.hdr.inRec == 0 || Ends(sc, s)
    ensures MakesProgress(sc, D, s)
  {
    NextAfter(sc, s, 0);
    HopGetsOn(sc, D, s);
    GettingOnIsProgress(sc, D, s, 1);
  }

  lemma HopGetsOn(sc: Scene, D: Point, s: Hop)
    requires Good(sc, D, s) && s.at != sc.dst
    requires s.hdr.inRec == 0 || Ends(sc, s)
    ensures GotOn(sc, D, s, 1, Advance(sc, s))
  {
    if Advance(sc, s).at == sc.dst {
      SomeLink(sc.net, s.at);
    } else {
      SomeLink(sc.net, s.at);
      HopPaysItsWay(sc, D, s);
    }
  }

  /** The walk has come, after i hops of the same episode, to a place t where it ends. */
  ghost predicate WalkedTo(sc: Scene, D: Point, s: Hop, i: nat, t: Hop) {
    && Good(sc, D, s) && s.hdr.inRec == 1 && i < |Edges(sc.net)|
    && t == After(sc, s, i) && Good(sc, D, t)
    && t.hdr.inRec == 1 && t.hdr.rec == s.hdr.rec
  }

  lemma ArrivesOnTheWay(sc: Scene, D: Point, s: Hop, k: nat)
    requires After(sc, s, k).at == sc.dst && k <= |Edges(sc.net)|
    ensures MakesProgress(sc, D, s)
  {
    assert IsSettled(sc)(After(sc, s, k));
    GettingOnIsProgress(sc, D, s, k);
  }

  lemma WalkEscapes(sc: Scene, D: Point, s: Hop, i: nat, t: Hop)
    requires WalkedTo(sc, D, s, i, t) && t.at != sc.dst && Ends(sc, t) && Advance(sc, t).at != sc.dst
    ensures MakesProgress(sc, D, s)
  {
    NextAfter(sc, s, i);
    HopPaysItsWay(sc, D, t);
    GettingOnIsProgress(sc, D, s, i + 1);
  }

  /** A recovery walk that is not a trap comes to an end within one round of its face. */
  lemma EpisodeEnds(sc: Scene, D: Point, s: Hop, e: Edge) returns (i: nat)
    requires Good(sc, D, s) && OnLink(sc, s, e) && !Circulates(sc, s)
    ensures WalkedTo(sc, D, s, i, After(sc, s, i)) && Ends(sc, After(sc, s, i))
  {
    var p := WalkIsPeriodic(sc.net, e);
    if EndlessUpTo(sc, s, e, p) {
      EndlessRoundCirculates(sc, D, s, e, p);
      assert false;
    }
    i := FirstEnd(sc, s, e, p);
    RunFollowsWalk(sc, D, s, e, i);
    WalkStateOnLink(sc, D, s, e, i);
  }

  lemma WalkMakesProgress(sc: Scene, D: Point, s: Hop, i: nat, t: Hop)
    requires WalkedTo(sc, D, s, i, t) && Ends(sc, t)
    ensures MakesProgress(sc, D, s)
  {
    if t.at == sc.dst {
      ArrivesOnTheWay(sc, D, s, i);
    } else if Advance(sc, t).at == sc.dst {
      NextAfter(sc, s, i);
      ArrivesOnTheWay(sc, D, s, i + 1);
    } else {
      WalkEscapes(sc, D, s, i, t);
    }
  }

  lemma GoodMakesProgress(sc: Scene, D: Point, s: Hop)
    requires Good(sc, D, s) && !IsSettled(sc)(s)
    ensures MakesProgress(sc, D, s)
  {
    if s.hdr.inRec == 1 && !Ends(sc, s) {
      var e :| OnLink(sc, s, e);
      var i := EpisodeEnds(sc, D, s, e);
      WalkMakesProgress(sc, D, s, i, After(sc, s, i));
    } else {
      HopMakesProgress(sc, D, s);
    }
  }

  /** From every good state the packet is delivered or trapped within its budget of hops. */
  lemma Settles(sc: Scene, D: Point, s: Hop) returns (k: nat)
    requires Good(sc, D, s)
    ensures k <= HopBudget(sc)(s)
    ensures After(sc, s, k).at == sc.dst || Circulates(sc, After(sc, s, k))
  {
    forall t | IsGood(sc, D)(t) && !IsSettled(sc)(t)
      ensures Progresses(Onward(sc), IsGood(sc, D), IsSettled(sc), Level(sc), HopBudget(sc), t)
    {
      GoodMakesProgress(sc, D, t);
    }
    k := DoneWithinBudget(Onward(sc), IsGood(sc, D), IsSettled(sc), Level(sc), HopBudget(sc), s);
  }

  /** Whole-run dichotomy: a packet that starts greedily at any node with a neighbour is, after at most
      n laps of e + 1 hops, e the number of directed kept links, delivered or circulating for ever on
      one cycle of links inside a single recovery episode. */
  lemma DeliveredOrTrapped(sc: Scene, D: Point, s: Hop) returns (k: nat)
    requires Good(sc, D, s) && s.hdr.inRec == 0
    ensures k <= |sc.net.pos| * (|Edges(sc.net)| + 1)
    ensures After(sc, s, k).at == sc.dst || Circulates(sc, After(sc, s, k))
  {
    k := Settles(sc, D, s);
    RankBounds(sc.net, D, Potential(sc, s));
    FewerLaps(Ahead(sc, s), |sc.net.pos|, |Edges(sc.net)| + 1);
    LapsMultiply(|sc.net.pos|, |Edges(sc.net)| + 1);
  }

  lemma ReachableExtends(net: Network, a: Addr, b: Addr, c: Addr)
    requires Reachable(net, a, b) && Linked(net, b, c)
    ensures Reachable(net, a, c)
  {
    var p :| LinkedPath(net, p) && Joins(p, a, b);
    var q := p + [c];
    forall i | 0 <= i < |q| - 1
      ensures LinkedAt(net, q, i)
    {
      assert i < |p| - 1 ==> LinkedAt(net, p, i);
    }
    assert LinkedPath(net, q) && Joins(q, a, c);
  }

  /** A packet never leaves the connected component in which it started. */
  lemma {:induction false} StaysReachable(sc: Scene, D: Point, s: Hop, k: nat)
    requires Good(sc, D, s)
    ensures Reachable(sc.net, s.at, After(sc, s, k).at)
  {
    NextAfter(sc, s, if k == 0 then 0 else k - 1);
    if k == 0 {
      assert LinkedPath(sc.net, [s.at]) && Joins([s.at], s.at, s.at);
    } else {
      StaysReachable(sc, D, s, k - 1);
      GoodForever(sc, D, s, k - 1);
      HopStaysReachable(sc, D, s.at, After(sc, s, k - 1));
    }
  }

  lemma HopStaysReachable(sc: Scene, D: Point, from: Addr, t: Hop)
    requires Good(sc, D, t) && Reachable(sc.net, from, t.at)
    ensures Reachable(sc.net, from, Advance(sc, t).at)
  {
    if t.at != sc.dst {
      GoodMovesOn(sc, D, t);
      HopAndPotential(sc, D, t);
      ReachableExtends(sc.net, from, t.at, Advance(sc, t).at);
    }
  }

  /** Nothing but a time-to-live ever removes a packet for an unreachable destination from a node that
      has neighbours: it is neither delivered nor deferred, and ends up circulating. */
  lemma UnreachableCirculates(sc: Scene, D: Point, s: Hop) returns (k: nat)
    requires Good(sc, D, s) && s.hdr.inRec == 0 && !Reachable(sc.net, s.at, sc.dst)
    ensures forall j: nat :: MovesAt(sc, s, j)
    ensures k <= |sc.net.pos| * (|Edges(sc.net)| + 1) && Circulates(sc, After(sc, s, k))
  {
    forall j: nat
      ensures MovesAt(sc, s, j)
    {
      StaysReachable(sc, D, s, j);
      GoodForever(sc, D, s, j);
      GoodMovesOn(sc, D, After(sc, s, j));
    }
    k := DeliveredOrTrapped(sc, D, s);
    StaysReachable(sc, D, s, k);
  }

  /** After j hops the packet is away from its destination and is transmitted once more. */
  ghost predicate MovesAt(sc: Scene, s: Hop, j: nat) {
    var t := After(sc, s, j);
    t.at in sc.net.pos && t.at != sc.dst && Decide(sc, t).Transmit?
  }
}
