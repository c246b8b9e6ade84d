/** A closed ring whose manager still forwards on both ports is found and cut by one test frame. */
module Healing {
  import opened MrpTypes
  import opened EtherAddr
  import opened MrpNode
  import opened MrpSetup
  import opened MrmInvariants
  import opened MrcInvariants
  import opened RingNet
  import opened Duties

  /** A plain client with both ring links up. */
  predicate Relaying(n: Node) { MrcInv(n.cfg, n.ring) && n.ring.p.up && n.ring.s.up }

  /** A fixed-role manager with both ring links up. */
  predicate Managing(n: Node) { FixedMrm(n.cfg, n.ring, n.inter) && n.ring.p.up && n.ring.s.up }

  /** A fixed-role manager that keeps the ring open at its secondary port. */
  predicate Cutting(n: Node) {
    && FixedMrm(n.cfg, n.ring, n.inter)
    && n.ring.mrm == ChkRc && n.ring.p.state == Forwarding && n.ring.s.state == Blocked
  }

  /** One manager, all others plain clients, all links up. */
  ghost predicate Closed(s: RingSys, m: nat) {
    && s.Wired() && m < |s.nodes| && Managing(s.nodes[m])
    && forall i :: 0 <= i < |s.nodes| && i != m ==> Relaying(s.nodes[i])
  }

  /** The ring frames that every client passes on. */
  predicate Carriable(f: Pdu) { f.Test? || f.Topo? || f.Link? }

  /** A client passes a ring frame from either port to the other, blocked or not, and keeps both links. It
      is affected by a topology change alone. */
  lemma ClientPasses(n: Node, t: nat, x: RingPort, f: Pdu)
    requires Relaying(n) && Carriable(f)
    ensures var e := Receive(OnRing(x), f);
            && Relayed(OnRing(x.Other()), true, f) in n.Out(e)
            && Relaying(n.Step(t, e)) && n.Step(t, e).cfg == n.cfg
            && (!f.Topo? ==> n.Step(t, e) == n && n.Out(e) == [Relayed(OnRing(x.Other()), true, f)])
  {
    var e := Receive(OnRing(x), f);
    assert n.Passes(e);
    MrcInvKept(n.cfg, n.ring, n.inter.role, t, e, true);
    assert n.ForwardOut(OnRing(x), f) == [Relayed(OnRing(x.Other()), true, f)];
  }

  /** A client passes a test frame straight through and is not affected by it. */
  lemma ClientPassesTest(n: Node, t: nat, x: RingPort, f: Pdu)
    requires Relaying(n) && f.Test?
    ensures n.Step(t, Receive(OnRing(x), f)) == n
    ensures n.Out(Receive(OnRing(x), f)) == [Relayed(OnRing(x.Other()), true, f)]
  {
    ClientPasses(n, t, x, f);
  }

  /** An expired test timer makes the manager send its test frame around the ring both ways. */
  lemma ManagerTests(n: Node, t: nat, x: RingPort)
    requires Managing(n) && n.ring.mrm == ChkRo
    ensures Sent(OnRing(x), true, n.TestPdu(OnRing(x))) in n.Out(Expire(RingTestT))
    ensures Managing(n.Step(t, Expire(RingTestT))) && n.Step(t, Expire(RingTestT)).ring.mrm == ChkRo
  {
    MrmInvKept(n.cfg, n.ring, n.inter.role, t, Expire(RingTestT), false);
    RolesStay(n, t, Expire(RingTestT));
    assert x == n.ring.primary || x == n.ring.primary.Other();
    assert n.TestFrames()[0] in n.TestFrames() && n.TestFrames()[1] in n.TestFrames();
  }

  /** Its own test frame, on either port, closes the ring: the secondary port is blocked. */
  lemma ManagerCloses(n: Node, t: nat, x: RingPort, f: Pdu)
    requires Managing(n) && n.ring.mrm == ChkRo && f.Test? && f.sa == n.cfg.mac
    ensures Cutting(n.Step(t, Receive(OnRing(x), f)))
  {
    var e := Receive(OnRing(x), f);
    assert n.Passes(e);
    MacEqualIsEquality(f.sa, n.cfg.mac);
    MrmInvKept(n.cfg, n.ring, n.inter.role, t, e, true);
    RolesStay(n, t, e);
  }

  /** Node `i` takes the frame of a flight that has reached it. */
  function Delivery(s: RingSys, i: nat, cw: bool, f: Pdu, hops: nat, t: nat): RingMove
    requires s.Wired() && i < |s.nodes|
  {
    RingMove(i, t, Receive(OnRing(s.InPort(i, cw)), f), hops)
  }

  lemma DeliveryIsStep(s: RingSys, i: nat, cw: bool, f: Pdu, hops: nat, t: nat)
    requires s.Wired() && i < |s.nodes| && Flight(i, cw, f, hops) in s.flights
    ensures var mv := Delivery(s, i, cw, f, hops, t); RingStep(s, After(s, mv), mv)
  {
  }

  /** The nodes from distance `d` on, in the direction of travel and up to the manager, are clients with
      both links. */
  ghost predicate OnPath(s: RingSys, m: nat, cw: bool, d: int) {
    && s.Wired() && m < |s.nodes|
    && forall i :: 0 <= i < |s.nodes| && i != m && Distance(|s.nodes|, m, i, cw) >= d ==> Relaying(s.nodes[i])
  }

  /** The ring after a frame passed: the manager is as it was, and so are all nodes unless the frame was a
      topology change. */
  predicate Passed(s: RingSys, s': RingSys, m: nat, f: Pdu) {
    && s'.right == s.right && |s'.nodes| == |s.nodes| && m < |s.nodes| && s'.nodes[m] == s.nodes[m]
    && (!f.Topo? ==> s'.nodes == s.nodes)
  }

  /** A ring frame delivered to a client flies on to the next node. */
  lemma ClientHop(s: RingSys, m: nat, i: nat, cw: bool, f: Pdu, hops: nat, t: nat, d: int)
    requires OnPath(s, m, cw, d) && i < |s.nodes| && i != m && Distance(|s.nodes|, m, i, cw) == d
    requires Carriable(f) && Flight(i, cw, f, hops) in s.flights
    ensures var s' := After(s, Delivery(s, i, cw, f, hops, t));
            && Passed(s, s', m, f) && OnPath(s', m, cw, d + 1)
            && Flight(s.Neighbour(i, cw), cw, f, hops + 1) in s'.flights
  {
    var x := s.InPort(i, cw);
    ClientPasses(s.nodes[i], t, x, f);
    var o := Relayed(OnRing(x.Other()), true, f);
    assert s.Launch(i, hops, o) == Flight(s.Neighbour(i, cw), cw, f, hops + 1);
  }

  /** Move `mv` delivers frame `f`, on its way around, to the node at distance `d` from the manager. */
  predicate Passage(s: RingSys, m: nat, cw: bool, f: Pdu, d: int, mv: RingMove) {
    && s.Wired() && mv.i < |s.nodes| && Distance(|s.nodes|, m, mv.i, cw) == d
    && mv.e == Receive(OnRing(s.InPort(mv.i, cw)), f)
  }

  lemma PassageSame(s: RingSys, s': RingSys, m: nat, cw: bool, f: Pdu, d: int, mv: RingMove)
    requires Passage(s', m, cw, f, d, mv) && |s'.nodes| == |s.nodes| && s'.right == s.right
    ensures Passage(s, m, cw, f, d, mv)
  {
  }

  /** `ms` delivers frame `f` to the nodes at distance `d`, `d + 1`, ... from the manager, up to the
      last one before it, and leaves it on its way to the manager. */
  ghost predicate Carried(s: RingSys, m: nat, cw: bool, f: Pdu, d: int, hops: nat,
                          ss: seq<RingSys>, ms: seq<RingMove>)
  {
    && RingRun(ss, ms) && ss[0] == s
    && |ms| == |s.nodes| - d
    && (forall q :: 0 <= q < |ms| ==> Passage(s, m, cw, f, d + q, ms[q]))
    && Passed(s, ss[|ms|], m, f)
    && Flight(m, cw, f, hops + |ms|) in ss[|ms|].flights
  }

  lemma Prepend(s: RingSys, mv: RingMove, ss: seq<RingSys>, ms: seq<RingMove>)
    requires RingRun(ss, ms) && RingStep(s, ss[0], mv)
    ensures RingRun([s] + ss, [mv] + ms)
  {
    var ss', ms' := [s] + ss, [mv] + ms;
    forall k | 0 <= k < |ms'| ensures RingStep(ss'[k], ss'[k + 1], ms'[k]) {
      if k > 0 { assert RingStep(ss[k - 1], ss[k - 1 + 1], ms[k - 1]); }
    }
  }

  lemma CarriedOneMore(s: RingSys, s': RingSys, m: nat, cw: bool, f: Pdu, d: int, hops: nat, mv: RingMove,
                       ss: seq<RingSys>, ms: seq<RingMove>)
    requires RingStep(s, s', mv) && Passed(s, s', m, f)
    requires Passage(s, m, cw, f, d, mv)
    requires Carried(s', m, cw, f, d + 1, hops + 1, ss, ms)
    ensures Carried(s, m, cw, f, d, hops, [s] + ss, [mv] + ms)
  {
    Prepend(s, mv, ss, ms);
    var ss', ms' := [s] + ss, [mv] + ms;
    assert ss'[|ms'|] == ss[|ms|];
    forall q | 0 <= q < |ms'|
      ensures Passage(s, m, cw, f, d + q, ms'[q])
    {
      if q > 0 {
        PassageSame(s, s', m, cw, f, d + 1 + (q - 1), ms[q - 1]);
      }
    }
  }

  /** The frame is carried through all remaining clients, each exactly once, and reaches the manager. */
  lemma {:induction false} RelayAround(s: RingSys, m: nat, i: nat, cw: bool, f: Pdu, hops: nat, t: nat)
    returns (ss: seq<RingSys>, ms: seq<RingMove>)
    requires i < |s.nodes| && m < |s.nodes| && OnPath(s, m, cw, Distance(|s.nodes|, m, i, cw))
    requires Carriable(f) && Flight(i, cw, f, hops) in s.flights
    ensures Carried(s, m, cw, f, Distance(|s.nodes|, m, i, cw), hops, ss, ms)
    decreases |s.nodes| - Distance(|s.nodes|, m, i, cw)
  {
    var d := Distance(|s.nodes|, m, i, cw);
    if i == m {
      ss, ms := [s], [];
    } else {
      var mv := Delivery(s, i, cw, f, hops, t);
      DeliveryIsStep(s, i, cw, f, hops, t);
      ClientHop(s, m, i, cw, f, hops, t, d);
      assert Distance(|s.nodes|, m, s.Neighbour(i, cw), cw) == d + 1;
      var rest, moves := RelayAround(After(s, mv), m, s.Neighbour(i, cw), cw, f, hops + 1, t);
      CarriedOneMore(s, After(s, mv), m, cw, f, d, hops, mv, rest, moves);
      ss, ms := [s] + rest, [mv] + moves;
    }
  }

  /** The test timer of the manager expires: its test frame flies off in both directions. */
  lemma TestLaunched(s: RingSys, m: nat, cw: bool, t: nat)
    requires Closed(s, m) && s.nodes[m].ring.mrm == ChkRo
    ensures var mv := RingMove(m, t, Expire(RingTestT), 0);
            var s' := After(s, mv);
            var f := s.nodes[m].TestPdu(OnRing(s.InPort(m, !cw)));
            && RingStep(s, s', mv) && Closed(s', m) && s'.nodes[m].ring.mrm == ChkRo
            && s'.right == s.right && s'.nodes[m].cfg == s.nodes[m].cfg
            && (forall j :: 0 <= j < |s.nodes| && j != m ==> s'.nodes[j] == s.nodes[j])
            && Flight(s.Neighbour(m, cw), cw, f, 1) in s'.flights
  {
    var x := s.InPort(m, !cw);
    ManagerTests(s.nodes[m], t, x);
    var o := Sent(OnRing(x), true, s.nodes[m].TestPdu(OnRing(x)));
    assert s.Launch(m, 0, o) == Flight(s.Neighbour(m, cw), cw, o.pdu, 1);
  }

  /** The manager takes the frame that came around: it closes the ring, and nobody else changes. */
  lemma FrameReturns(s: RingSys, m: nat, cw: bool, f: Pdu, hops: nat, t: nat)
    requires Closed(s, m) && s.nodes[m].ring.mrm == ChkRo
    requires f.Test? && f.sa == s.nodes[m].cfg.mac && Flight(m, cw, f, hops) in s.flights
    ensures var mv := Delivery(s, m, cw, f, hops, t);
            var s' := After(s, mv);
            && RingStep(s, s', mv) && |s'.nodes| == |s.nodes|
            && Cutting(s'.nodes[m])
            && (forall j :: 0 <= j < |s.nodes| && j != m ==> s'.nodes[j] == s.nodes[j])
  {
    DeliveryIsStep(s, m, cw, f, hops, t);
    ManagerCloses(s.nodes[m], t, s.InPort(m, cw), f);
  }

  lemma Append(ss: seq<RingSys>, ms: seq<RingMove>, s': RingSys, mv: RingMove)
    requires RingRun(ss, ms) && RingStep(ss[|ms|], s', mv)
    ensures RingRun(ss + [s'], ms + [mv])
  {
    var ss', ms' := ss + [s'], ms + [mv];
    forall k | 0 <= k < |ms'| ensures RingStep(ss'[k], ss'[k + 1], ms'[k]) {
      if k < |ms| { assert RingStep(ss[k], ss[k + 1], ms[k]); }
    }
  }

  /** The test frame that the manager sends off in the given direction. */
  function TestOf(s: RingSys, m: nat, cw: bool): Pdu
    requires s.Wired() && m < |s.nodes|
  {
    s.nodes[m].TestPdu(OnRing(s.InPort(m, !cw)))
  }

  /** Move `q` of a healing run. */
  predicate HealingMove(s: RingSys, m: nat, cw: bool, q: nat, mv: RingMove)
    requires s.Wired() && m < |s.nodes|
  {
    if q == 0 then mv.i == m && mv.e == Expire(RingTestT) else Passage(s, m, cw, TestOf(s, m, cw), q, mv)
  }

  /** `ms` is the expiry of the test timer, then the passage of the test frame through the nodes at
      distance 1, 2, ... and finally, at distance `n`, through the other port of the manager itself. */
  ghost predicate HealingRun(s: RingSys, m: nat, cw: bool, ss: seq<RingSys>, ms: seq<RingMove>)
    requires s.Wired() && m < |s.nodes|
  {
    && RingRun(ss, ms) && ss[0] == s && |ms| == |s.nodes| + 1
    && forall q :: 0 <= q < |ms| ==> HealingMove(s, m, cw, q, ms[q])
  }

  /** The ring is closed again: one secondary port is blocked and no client was affected. */
  ghost predicate Healed(s: RingSys, s': RingSys, m: nat) {
    && |s'.nodes| == |s.nodes| && m < |s.nodes|
    && Cutting(s'.nodes[m])
    && forall j :: 0 <= j < |s.nodes| && j != m ==> s'.nodes[j] == s.nodes[j]
  }

  lemma Assemble(s: RingSys, s1: RingSys, m: nat, cw: bool, f: Pdu, mv0: RingMove,
                 rest: seq<RingSys>, moves: seq<RingMove>, s3: RingSys, mv2: RingMove)
    returns (ss: seq<RingSys>, ms: seq<RingMove>)
    requires RingStep(s, s1, mv0) && m < |s.nodes| == |s1.nodes| && s1.right == s.right
    requires mv0.i == m && mv0.e == Expire(RingTestT)
    requires f == TestOf(s, m, cw) && Carried(s1, m, cw, f, 1, 1, rest, moves)
    requires RingStep(rest[|moves|], s3, mv2) && Passage(s, m, cw, f, |s.nodes|, mv2)
    ensures HealingRun(s, m, cw, ss, ms) && ss[|ms|] == s3
  {
    Append(rest, moves, s3, mv2);
    Prepend(s, mv0, rest + [s3], moves + [mv2]);
    ss, ms := [s] + (rest + [s3]), [mv0] + (moves + [mv2]);
    forall q | 0 <= q < |ms| ensures HealingMove(s, m, cw, q, ms[q]) {
      if 0 < q < |s.nodes| {
        assert ms[q] == moves[q - 1];
        PassageSame(s, s1, m, cw, f, 1 + (q - 1), moves[q - 1]);
      }
    }
  }

  /** In a closed ring of any size, one test-timer expiry and lossless relaying, in either direction,
      take the manager from CHK_RO to CHK_RC. */
  lemma RingHeals(s: RingSys, m: nat, cw: bool, t: nat)
    returns (ss: seq<RingSys>, ms: seq<RingMove>)
    requires Closed(s, m) && s.nodes[m].ring.mrm == ChkRo
    ensures HealingRun(s, m, cw, ss, ms) && Healed(s, ss[|ms|], m)
  {
    var n := |s.nodes|;
    var mv0 := RingMove(m, t, Expire(RingTestT), 0);
    var s1 := After(s, mv0);
    TestLaunched(s, m, cw, t);
    var f := TestOf(s, m, cw);
    var i := s.Neighbour(m, cw);
    assert Distance(n, m, i, cw) == 1;
    var rest, moves := RelayAround(s1, m, i, cw, f, 1, t);
    var s2 := rest[|moves|];
    var hops := 1 + |moves|;
    FrameReturns(s2, m, cw, f, hops, t);
    var mv2 := Delivery(s2, m, cw, f, hops, t);
    ss, ms := Assemble(s, s1, m, cw, f, mv0, rest, moves, After(s2, mv2), mv2);
  }

  // ---- A lost link

  /** A manager that reacts to link changes opens its ring as soon as it hears of a lost link, on either
      port, and makes everybody flush at once. */
  lemma ReportOpens(n: Node, t: nat, x: RingPort, f: Pdu)
    requires Cutting(n) && n.cfg.react && f.Link? && !f.up
    ensures var e := Receive(OnRing(x), f);
            var r := n.Step(t, e).ring;
            && r.mrm == ChkRo && r.p.state == Forwarding && r.s.state == Forwarding
            && Flushed in n.Out(e)
            && (forall y: RingPort ::
                  Sent(OnRing(y), n.ring.Port(y).up, Topo(n.cfg.prio, n.cfg.mac, 0)) in n.Out(e))
  {
    assert n.Passes(Receive(OnRing(x), f));
    ReactingFlushes(n, x, f);
  }

  /** Client `i` of a ring loses the link by which frames of direction `cw` come in. */
  function Loss(s: RingSys, i: nat, cw: bool, t: nat): RingMove
    requires s.Wired() && i < |s.nodes|
  {
    RingMove(i, t, LinkChange(OnRing(s.InPort(i, cw)), false), 0)
  }

  /** Its announcement flies off by the other port. */
  lemma LossLaunched(s: RingSys, m: nat, i: nat, cw: bool, t: nat)
    requires OnPath(s, m, cw, Distance(|s.nodes|, m, i, cw)) && i < |s.nodes| && i != m
    ensures var s' := After(s, Loss(s, i, cw, t));
            var f := ChangeFrame(s.nodes[i].cfg, s.InPort(i, cw).Other(), false, s.nodes[i].cfg.linkMax).pdu;
            && RingStep(s, s', Loss(s, i, cw, t)) && s'.Wired() && |s'.nodes| == |s.nodes| && s'.right == s.right
            && s'.nodes[m] == s.nodes[m] && OnPath(s', m, cw, Distance(|s.nodes|, m, i, cw) + 1)
            && Flight(s.Neighbour(i, cw), cw, f, 1) in s'.flights
  {
    var x := s.InPort(i, cw);
    EntersDe(s.nodes[i], t, x);
    var o := ChangeFrame(s.nodes[i].cfg, x.Other(), false, s.nodes[i].cfg.linkMax);
    assert o in s.nodes[i].Out(LinkChange(OnRing(x), false));
    assert s.Launch(i, 0, o) == Flight(s.Neighbour(i, cw), cw, o.pdu, 1);
  }

  /** `ms` is the loss of a link at client `i`, then the passage of its announcement through all clients on
      the way to the manager at `m`, and its delivery there. */
  ghost predicate ReportRun(s: RingSys, m: nat, i: nat, cw: bool, ss: seq<RingSys>, ms: seq<RingMove>) {
    && RingRun(ss, ms) && ss[0] == s && s.Wired() && i < |s.nodes| && m < |s.nodes|
    && |ms| == |s.nodes| - Distance(|s.nodes|, m, i, cw) + 1
    && ms[0].i == i && ms[0].e == LinkChange(OnRing(s.InPort(i, cw)), false)
    && ms[|ms| - 1].i == m && ms[|ms| - 1].e.Receive? && ms[|ms| - 1].e.port == OnRing(s.InPort(m, cw))
  }

  /** The manager has opened the ring and forwards on both ports. */
  predicate Opened(s: RingSys, m: nat) {
    && m < |s.nodes| && s.nodes[m].ring.mrm == ChkRo
    && s.nodes[m].ring.p.state == Forwarding && s.nodes[m].ring.s.state == Forwarding
  }

  lemma ReportArrives(s: RingSys, m: nat, cw: bool, f: Pdu, hops: nat, t: nat)
    requires s.Wired() && m < |s.nodes| && Cutting(s.nodes[m]) && s.nodes[m].cfg.react
    requires f.Link? && !f.up && Flight(m, cw, f, hops) in s.flights
    ensures var mv := Delivery(s, m, cw, f, hops, t); RingStep(s, After(s, mv), mv) && Opened(After(s, mv), m)
  {
    DeliveryIsStep(s, m, cw, f, hops, t);
    ReportOpens(s.nodes[m], t, s.InPort(m, cw), f);
  }

  lemma AssembleReport(s: RingSys, s1: RingSys, m: nat, i: nat, cw: bool, f: Pdu, mv0: RingMove,
                       rest: seq<RingSys>, moves: seq<RingMove>, s3: RingSys, mv2: RingMove)
    returns (ss: seq<RingSys>, ms: seq<RingMove>)
    requires i < |s.nodes| && m < |s.nodes| == |s1.nodes| && s1.right == s.right
    requires RingStep(s, s1, mv0) && mv0.i == i && mv0.e == LinkChange(OnRing(s.InPort(i, cw)), false)
    requires Carried(s1, m, cw, f, Distance(|s.nodes|, m, i, cw) + 1, 1, rest, moves)
    requires RingStep(rest[|moves|], s3, mv2) && mv2.i == m && mv2.e == Receive(OnRing(s.InPort(m, cw)), f)
    ensures ReportRun(s, m, i, cw, ss, ms) && ss[|ms|] == s3
  {
    Append(rest, moves, s3, mv2);
    Prepend(s, mv0, rest + [s3], moves + [mv2]);
    ss, ms := [s] + (rest + [s3]), [mv0] + (moves + [mv2]);
  }

  /** The loss, and the passage of its announcement up to the manager. */
  lemma LossTravels(s: RingSys, m: nat, i: nat, cw: bool, t: nat)
    returns (f: Pdu, rest: seq<RingSys>, moves: seq<RingMove>)
    requires i < |s.nodes| && i != m && OnPath(s, m, cw, Distance(|s.nodes|, m, i, cw))
    ensures var s1 := After(s, Loss(s, i, cw, t));
            && RingStep(s, s1, Loss(s, i, cw, t)) && m < |s.nodes| == |s1.nodes| && s1.right == s.right
            && s1.nodes[m] == s.nodes[m] && f.Link? && !f.up
            && Carried(s1, m, cw, f, Distance(|s.nodes|, m, i, cw) + 1, 1, rest, moves)
  {
    LossLaunched(s, m, i, cw, t);
    f := ChangeFrame(s.nodes[i].cfg, s.InPort(i, cw).Other(), false, s.nodes[i].cfg.linkMax).pdu;
    var j := s.Neighbour(i, cw);
    assert Distance(|s.nodes|, m, j, cw) == Distance(|s.nodes|, m, i, cw) + 1;
    rest, moves := RelayAround(After(s, Loss(s, i, cw, t)), m, j, cw, f, 1, t);
  }

  /** In a ring of any size, when a client loses a link its announcement reaches the manager the other way
      round, whichever way that is, and opens the ring there. */
  lemma LossOpens(s: RingSys, m: nat, i: nat, cw: bool, t: nat)
    returns (ss: seq<RingSys>, ms: seq<RingMove>)
    requires i < |s.nodes| && i != m && OnPath(s, m, cw, Distance(|s.nodes|, m, i, cw))
    requires Cutting(s.nodes[m]) && s.nodes[m].cfg.react
    ensures ReportRun(s, m, i, cw, ss, ms) && Opened(ss[|ms|], m)
  {
    var f, rest, moves := LossTravels(s, m, i, cw, t);
    var s2 := rest[|moves|];
    var mv2 := Delivery(s2, m, cw, f, 1 + |moves|, t);
    ReportArrives(s2, m, cw, f, 1 + |moves|, t);
    ss, ms := AssembleReport(s, After(s, Loss(s, i, cw, t)), m, i, cw, f, Loss(s, i, cw, t), rest, moves,
                             After(s2, mv2), mv2);
  }
}
