/** Whole runs of one packet over a static network, and what greedy hops and recovery consume. */
module Runs {
  import opened Types
  import opened Veils
  import opened Geometry
  import opened UnitDisc
  import opened Cycles
  import opened Packets
  import opened Routing

  /** What stays fixed during a run. */
  datatype Scene = Scene(net: Network, graph: U8, dst: Addr, fix: Fix)

  /** A packet in flight: the node that holds it and the header it carries. */
  datatype Hop = Hop(at: Addr, hdr: PositionHeader)

  /** The forwarding decision of the node that holds the packet. */
  ghost function Ruling(sc: Scene, s: Hop): Decision {
    if s.at in sc.net.pos then
      Forward(sc.graph, View(sc.net, s.at), sc.net.pos[s.at], sc.dst, s.hdr, sc.fix)
    else Defer(s.hdr)
  }

  /** Ruling as a function value, so that a proof about a run meets the definition of a decision only
      where it asks for it. */
  ghost function Rule(sc: Scene): Hop -> Decision {
    Veiled((s: Hop) => Ruling(sc, s))
  }

  ghost function Decide(sc: Scene, s: Hop): Decision {
    Rule(sc)(s)
  }

  lemma DecideIsRuling(sc: Scene, s: Hop)
    ensures Decide(sc, s) == Ruling(sc, s)
  {
    LookUp((s: Hop) => Ruling(sc, s), s);
  }

  /** One hop; a packet at its destination, or deferred for want of a neighbour, stays. */
  ghost function Advance(sc: Scene, s: Hop): Hop {
    if s.at == sc.dst then s
    else match Decide(sc, s)
      case Transmit(nextHop, hdr) => Hop(nextHop, hdr)
      case Defer(_) => s
  }

  ghost function Onward(sc: Scene): Hop -> Hop {
    s => Advance(sc, s)
  }

  /** The packet after k hops. */
  ghost function After(sc: Scene, s: Hop, k: nat): Hop {
    Iterate(Onward(sc), s, k)
  }

  lemma NextAfter(sc: Scene, s: Hop, k: nat)
    ensures After(sc, s, 0) == s
    ensures After(sc, s, k + 1) == Iterate(Onward(sc), s, k + 1) == Advance(sc, After(sc, s, k))
  {
    IterateStep(Onward(sc), s, k);
  }

  /** Every party agrees that the destination is at D. */
  ghost predicate Agreed(sc: Scene, D: Point, s: Hop) {
    && s.hdr.dst == D
    && (sc.fix.updated <= s.hdr.updated || sc.fix.pos == D)
    && s.hdr.inRec <= 1
  }

  // ---------- leaving recovery ----------

  /** The holder is closer to the destination than the point where recovery began. */
  ghost predicate Leaves(sc: Scene, s: Hop)
    requires s.at in sc.net.pos
  {
    LeavesRecovery(sc.net.pos[s.at], s.hdr)
  }

  // ---------- the potential ----------

  /** The squared distance to beat: of the recovery point in recovery, of the holder otherwise. */
  ghost function Potential(sc: Scene, s: Hop): int
    requires s.at in sc.net.pos
  {
    if s.hdr.inRec == 1 then Dist2(s.hdr.rec, s.hdr.dst) else Dist2(sc.net.pos[s.at], s.hdr.dst)
  }

  /** The node starts a new recovery episode: it was not in recovery, or leaves one and starts another. */
  ghost predicate Enters(sc: Scene, s: Hop)
    requires s.at in sc.net.pos
  {
    (s.hdr.inRec == 0 || Leaves(sc, s)) && Advance(sc, s).hdr.inRec == 1
  }

  /** What one transmitted hop does to the potential. */
  lemma HopAndPotential(sc: Scene, D: Point, s: Hop)
    requires Valid(sc.net) && s.at in sc.net.pos && s.at != sc.dst && Agreed(sc, D, s)
    requires Decide(sc, s).Transmit?
    ensures var t := Advance(sc, s);
            && Linked(sc.net, s.at, t.at) && Agreed(sc, D, t)
            && t.hdr.last == sc.net.pos[s.at]
            && (t.at != sc.dst ==> Potential(sc, t) <= Potential(sc, s))
            && (t.hdr.inRec == 0 ==> Dist2(sc.net.pos[s.at], D) <= Potential(sc, s))
            && (t.hdr.inRec == 0 && s.hdr.inRec == 1 ==> Dist2(sc.net.pos[s.at], D) < Potential(sc, s))
            && (t.hdr.inRec == 0 && t.at != sc.dst ==>
                  && Dist2(sc.net.pos[t.at], D) < Dist2(sc.net.pos[s.at], D)
                  && Potential(sc, t) < Potential(sc, s))
            && (s.hdr.inRec == 1 && t.hdr.inRec == 1 && !Enters(sc, s) ==>
                  t.hdr.rec == s.hdr.rec && Potential(sc, t) == Potential(sc, s))
            && (Enters(sc, s) ==>
                  && t.hdr.rec == sc.net.pos[s.at]
                  && Potential(sc, t) == Dist2(sc.net.pos[s.at], D)
                  && (s.hdr.inRec == 1 ==> Potential(sc, t) < Potential(sc, s)))
  {
    DecideIsRuling(sc, s);
    TransmitCases(sc.graph, View(sc.net, s.at), sc.net.pos[s.at], sc.dst, s.hdr, sc.fix);
  }

  /** One greedy hop at a node that knows the destination's position, later than the packet does, brings the
      packet into agreement, wherever its header has pointed until then. */
  lemma GreedyHopInforms(sc: Scene, D: Point, s: Hop)
    requires Valid(sc.net) && s.at in sc.net.pos && s.at != sc.dst
    requires sc.fix.pos == D && sc.fix.updated > s.hdr.updated
    requires Decide(sc, s).Transmit? && Advance(sc, s).hdr.inRec == 0
    ensures Agreed(sc, D, Advance(sc, s)) && Advance(sc, s).hdr.updated == sc.fix.updated
  {
    DecideIsRuling(sc, s);
    TransmitCases(sc.graph, View(sc.net, s.at), sc.net.pos[s.at], sc.dst, s.hdr, sc.fix);
  }

  /** A hop in recovery does not: the position it carries on is the one the packet came with. */
  lemma RecoveryDoesNotInform(sc: Scene, s: Hop)
    requires Valid(sc.net) && s.at in sc.net.pos && s.at != sc.dst
    requires Decide(sc, s).Transmit? && Advance(sc, s).hdr.inRec != 0
    ensures Advance(sc, s).hdr.dst == s.hdr.dst && Advance(sc, s).hdr.updated == s.hdr.updated
  {
    DecideIsRuling(sc, s);
    TransmitCases(sc.graph, View(sc.net, s.at), sc.net.pos[s.at], sc.dst, s.hdr, sc.fix);
  }

  /** How many nodes lie strictly closer to D than v. */
  ghost function Rank(net: Network, D: Point, v: int): nat {
    |CloserThan(net, D, v)|
  }

  ghost function CloserThan(net: Network, D: Point, v: int): set<Addr> {
    set a | a in net.pos && Dist2(net.pos[a], D) < v
  }

  lemma RankBounds(net: Network, D: Point, v: int)
    ensures Rank(net, D, v) <= |net.pos|
    ensures forall a :: a in net.pos && Dist2(net.pos[a], D) == v ==> Rank(net, D, v) < |net.pos|
  {
    SubsetIsNoLarger(CloserThan(net, D, v), net.pos.Keys);
    forall a | a in net.pos && Dist2(net.pos[a], D) == v
      ensures Rank(net, D, v) < |net.pos|
    {
      SubsetIsNoLarger(CloserThan(net, D, v), net.pos.Keys - {a});
    }
  }

  /** Dropping to the distance of some node lowers the rank. */
  lemma RankDrops(net: Network, D: Point, a: Addr, v: int)
    requires a in net.pos && Dist2(net.pos[a], D) < v
    ensures Rank(net, D, Dist2(net.pos[a], D)) < Rank(net, D, v)
  {
    var low, high := CloserThan(net, D, Dist2(net.pos[a], D)), CloserThan(net, D, v);
    assert low <= high - {a};
    SubsetIsNoLarger(low, high - {a});
  }

  // ---------- finite runs ----------

  /** A run: every node but the last is not the destination and transmits to the next one. */
  ghost predicate IsRun(sc: Scene, run: seq<Hop>) {
    && run != []
    && (forall i :: 0 <= i < |run| ==> run[i].at in sc.net.pos)
    && (forall i :: 0 <= i < |run| - 1 ==> HandsOver(sc, run, i))
  }

  ghost predicate HandsOver(sc: Scene, run: seq<Hop>, i: nat)
    requires i + 1 < |run| && run[i].at in sc.net.pos
  {
    Passes(sc, run[i], run[i + 1])
  }

  lemma RestIsRun(sc: Scene, run: seq<Hop>)
    requires IsRun(sc, run) && |run| > 1
    ensures IsRun(sc, run[1..])
  {
    forall i | 0 <= i < |run[1..]| - 1
      ensures HandsOver(sc, run[1..], i)
    {
      assert HandsOver(sc, run, i + 1);
    }
  }

  /** The holder is not the destination and hands the packet on. */
  ghost predicate Passes(sc: Scene, s: Hop, t: Hop)
    requires s.at in sc.net.pos
  {
    s.at != sc.dst && Decide(sc, s).Transmit? && t == Advance(sc, s)
  }

  ghost function Episodes(sc: Scene, run: seq<Hop>): nat
    requires IsRun(sc, run)
  {
    if |run| == 1 then 0
    else
      RestIsRun(sc, run);
      (if Enters(sc, run[0]) then 1 else 0) + Episodes(sc, run[1..])
  }

  /** How many recovery episodes the rest of the run can still afford. */
  ghost function Allowance(sc: Scene, s: Hop): nat
    requires s.at in sc.net.pos
  {
    Rank(sc.net, s.hdr.dst, Potential(sc, s)) + (if s.hdr.inRec == 1 then 0 else 1)
  }

  lemma {:induction false} EpisodesWithinAllowance(sc: Scene, D: Point, run: seq<Hop>)
    requires Valid(sc.net) && IsRun(sc, run) && Agreed(sc, D, run[0])
    ensures Episodes(sc, run) <= Allowance(sc, run[0])
    decreases |run|
  {
    if |run| > 1 {
      RestIsRun(sc, run);
      assert HandsOver(sc, run, 0);
      if |run| > 2 {
        assert HandsOver(sc, run, 1);
        HopAndPotential(sc, D, run[0]);
        EpisodesWithinAllowance(sc, D, run[1..]);
        AllowanceSpent(sc, D, run[0]);
      } else {
        LastEntryIsAfforded(sc, D, run[0]);
        assert Episodes(sc, run[1..]) == 0;
      }
    }
  }

  lemma LastEntryIsAfforded(sc: Scene, D: Point, s: Hop)
    requires Valid(sc.net) && s.at in sc.net.pos && s.at != sc.dst && Agreed(sc, D, s)
    ensures Enters(sc, s) ==> 1 <= Allowance(sc, s)
  {
    if Enters(sc, s) && s.hdr.inRec == 1 {
      RankDrops(sc.net, D, s.at, Potential(sc, s));
    }
  }

  /** A non-delivering hop never raises the allowance, and one that enters recovery spends some. */
  lemma AllowanceSpent(sc: Scene, D: Point, s: Hop)
    requires Valid(sc.net) && s.at in sc.net.pos && s.at != sc.dst && Agreed(sc, D, s)
    requires Decide(sc, s).Transmit? && Advance(sc, s).at in sc.net.pos && Advance(sc, s).at != sc.dst
    ensures Allowance(sc, Advance(sc, s)) + (if Enters(sc, s) then 1 else 0) <= Allowance(sc, s)
  {
    var t := Advance(sc, s);
    HopAndPotential(sc, D, s);
    if t.hdr.inRec == 0 {
      RankDrops(sc.net, D, t.at, Dist2(sc.net.pos[s.at], D));
      if s.hdr.inRec == 1 {
        RankDrops(sc.net, D, s.at, Potential(sc, s));
      }
    } else if Enters(sc, s) && s.hdr.inRec == 1 {
      RankDrops(sc.net, D, s.at, Potential(sc, s));
    }
  }

  lemma {:induction false} AgreementLasts(sc: Scene, D: Point, run: seq<Hop>, j: nat)
    requires Valid(sc.net) && IsRun(sc, run) && Agreed(sc, D, run[0]) && j < |run|
    ensures Agreed(sc, D, run[j])
  {
    if 0 < j {
      assert HandsOver(sc, run, j - 1);
      AgreementLasts(sc, D, run, j - 1);
      HopAndPotential(sc, D, run[j - 1]);
    }
  }

  /** Along a run that has not delivered, the potential never rises ... */
  lemma {:induction false} PotentialNeverRises(sc: Scene, D: Point, run: seq<Hop>, i: nat, j: nat)
    requires Valid(sc.net) && IsRun(sc, run) && Agreed(sc, D, run[0])
    requires i <= j < |run| && run[j].at != sc.dst
    ensures Potential(sc, run[j]) <= Potential(sc, run[i])
  {
    if i < j {
      assert HandsOver(sc, run, j - 1);
      PotentialNeverRises(sc, D, run, i, j - 1);
      AgreementLasts(sc, D, run, j - 1);
      HopAndPotential(sc, D, run[j - 1]);
    }
  }

  /** ... and one packet enters recovery at most as often as there are nodes. */
  lemma EpisodesAreBounded(sc: Scene, D: Point, run: seq<Hop>)
    requires Valid(sc.net) && IsRun(sc, run) && Agreed(sc, D, run[0])
    ensures Episodes(sc, run) <= |sc.net.pos|
  {
    EpisodesWithinAllowance(sc, D, run);
    RankBounds(sc.net, D, Potential(sc, run[0]));
  }

  /** Greedy hops alone never loop: no node is visited twice, so there are at most as many as nodes. */
  lemma GreedyIsLoopFree(sc: Scene, D: Point, run: seq<Hop>)
    requires Valid(sc.net) && IsRun(sc, run) && Agreed(sc, D, run[0])
    requires forall i :: 0 <= i < |run| ==> run[i].hdr.inRec == 0
    ensures forall i, j :: 0 <= i < j < |run| ==> run[i].at != run[j].at
    ensures |run| <= |sc.net.pos|
  {
    forall i, j | 0 <= i < j < |run|
      ensures run[i].at != run[j].at
    {
      GreedyNeverReturns(sc, D, run, i, j);
    }
    VisitedCount(sc, run);
    SubsetIsNoLarger(Visited(run), sc.net.pos.Keys);
  }

  lemma GreedyNeverReturns(sc: Scene, D: Point, run: seq<Hop>, i: nat, j: nat)
    requires Valid(sc.net) && IsRun(sc, run) && Agreed(sc, D, run[0])
    requires i < j < |run| && run[i].hdr.inRec == 0 && run[j].hdr.inRec == 0
    ensures run[i].at != run[j].at
  {
    assert HandsOver(sc, run, j - 1);
    if j < |run| - 1 {
      assert HandsOver(sc, run, j);
    }
    if i + 1 < |run| {
      assert HandsOver(sc, run, i);
    }
    if run[j].at != sc.dst {
      AgreementLasts(sc, D, run, i);
      AgreementLasts(sc, D, run, j - 1);
      PotentialNeverRises(sc, D, run, i, j - 1);
      HopAndPotential(sc, D, run[j - 1]);
    }
  }

  ghost function Visited(run: seq<Hop>): set<Addr> {
    set i | 0 <= i < |run| :: run[i].at
  }

  lemma {:induction false} VisitedCount(sc: Scene, run: seq<Hop>)
    requires forall i, j :: 0 <= i < j < |run| ==> run[i].at != run[j].at
    requires forall i :: 0 <= i < |run| ==> run[i].at in sc.net.pos
    ensures |Visited(run)| == |run| && Visited(run) <= sc.net.pos.Keys
  {
    if run != [] {
      var n := |run| - 1;
      VisitedCount(sc, run[..n]);
      assert Visited(run) == Visited(run[..n]) + {run[n].at};
      assert run[n].at !in Visited(run[..n]);
    }
  }
}
