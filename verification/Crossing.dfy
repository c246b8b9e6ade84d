/** Which frames an instance takes in and passes on, on which ports, and how the frames of an
    interconnection get from one end to the other. */
module Crossing {
  import opened MrpTypes
  import opened EtherAddr
  import opened MrpNode
  import opened RingNet
  import opened InterDetection
  import opened Duties
  import MicAnnounce

  // ---- One node

  /** Node `n` passes frame `f` from port `at` to port `to`. */
  predicate PassesOn(n: Node, at: PortRef, f: Pdu, to: PortRef) {
    Relayed(to, n.IsUp(to), f) in n.Out(Receive(at, f))
  }

  /** A blocked ring port takes in ring frames, topology and link changes of the interconnection; the blocked
      interconnection port takes in interconnect frames other than MRP_InLinkStatusPoll. */
  predicate Admitted(n: Node, at: PortRef, f: Pdu) {
    match n.StateOf(at)
    case Disabled => false
    case Forwarding => true
    case Blocked =>
      match f
      case InTest(_, _, _, _, _) => at.OnInter?
      case InTopo(_, _, _) => true
      case InLink(_, _, _, _, _) => true
      case InLinkStatus(_, _, _) => false
      case Unknown => false
      case _ => at.OnRing?
  }

  lemma AdmittedIff(n: Node, at: PortRef, f: Pdu)
    requires at.OnInter? ==> n.inter.present
    ensures n.Passes(Receive(at, f)) <==> Admitted(n, at, f)
  {
  }

  predicate Planned(n: Node, plan: Plan, to: PortRef) {
    if to == n.PRef() then plan.toP else if to == n.SRef() then plan.toS else plan.toI
  }

  lemma PlannedIff(n: Node, at: PortRef, f: Pdu, to: PortRef)
    requires n.Passes(Receive(at, f))
    ensures PassesOn(n, at, f, to) <==> Planned(n, n.ForwardPlan(at, f), to)
  {
    NoRelayInProcess(n, f);
    var plan := n.ForwardPlan(at, f);
    var o := Relayed(to, n.IsUp(to), f);
    assert n.Out(Receive(at, f)) == n.ForwardOut(at, f) + n.ProcessOut(f);
    assert o in n.Out(Receive(at, f)) <==> o in n.ForwardOut(at, f);
    assert to == n.PRef() || to == n.SRef() || to == OnInter;
    assert plan.toP ==> Relayed(n.PRef(), n.IsUp(n.PRef()), f) == n.Relay(true, n.PRef(), f)[0];
    assert plan.toS ==> Relayed(n.SRef(), n.IsUp(n.SRef()), f) == n.Relay(true, n.SRef(), f)[0];
    assert plan.toI ==> Relayed(OnInter, n.IsUp(OnInter), f) == n.Relay(true, OnInter, f)[0];
  }

  /** Ring frames go from one ring port to the other, through clients alone, and options through clients with
      auto-manager support alone. */
  lemma RingPassesIff(n: Node, at: PortRef, f: Pdu, to: PortRef)
    requires f.IsRingFrame() && (at.OnInter? ==> n.inter.present)
    ensures PassesOn(n, at, f, to) <==>
            && Admitted(n, at, f) && at.OnRing? && to == OnRing(at.x.Other()) && n.ring.role == MRC
            && (f.IsOption() ==> n.cfg.mra)
  {
    AdmittedIff(n, at, f);
    if Admitted(n, at, f) {
      PlannedIff(n, at, f, to);
    }
  }

  /** A frame of no known type goes to every other port. */
  lemma UnknownPassesIff(n: Node, at: PortRef, to: PortRef)
    requires at.OnInter? ==> n.inter.present
    ensures PassesOn(n, at, Unknown, to) <==>
            n.StateOf(at) == Forwarding && to != at && (to.OnInter? ==> n.inter.present)
  {
    AdmittedIff(n, at, Unknown);
    if Admitted(n, at, Unknown) {
      PlannedIff(n, at, Unknown, to);
    }
  }

  /** Where the two roles keep an interconnect frame from going round the ring: at a manager with a port that
      does not forward, and at a client with an interconnection role that takes the frame for its own. */
  predicate Closed(n: Node, f: Pdu) {
    if n.ring.role == MRM then Cut(n) else n.inter.role != InDisabled && f.ForwardingId() == n.cfg.inId
  }

  /** What the interconnection role lets through. */
  predicate Lets(n: Node, at: PortRef, f: Pdu, to: PortRef) {
    match n.inter.role
    case InDisabled => true
    case MIM => at.OnRing? && to.OnRing? && !(f.InTest? && f.sa == n.cfg.mac)
    case MIC =>
      match f
      case InTest(_, _, _, _, _) => true
      case InLink(_, _, _, _, _) => at.OnRing?
      case InLinkStatus(_, _, _) => at.OnRing? && to.OnInter?
      case _ => to.OnRing?
  }

  lemma ByRingIff(n: Node, at: PortRef, f: Pdu, to: PortRef)
    requires f.IsInFrame()
    ensures Planned(n, n.InPlanByRing(at, f), to) <==>
            to != at && (to.OnInter? ==> n.inter.present) && (at.OnRing? && to.OnRing? ==> !Closed(n, f))
  {
  }

  lemma ByRoleIff(n: Node, at: PortRef, f: Pdu, to: PortRef)
    requires f.IsInFrame()
    ensures Planned(n, n.InPlan(at, f), to) <==> Planned(n, n.InPlanByRing(at, f), to) && Lets(n, at, f, to)
  {
    if f.InTest? {
      MacEqualIsEquality(f.sa, n.cfg.mac);
    }
    ByRingIff(n, at, f, to);
  }

  /** Interconnect frames go wherever neither role stops them. */
  lemma InPassesIff(n: Node, at: PortRef, f: Pdu, to: PortRef)
    requires f.IsInFrame() && (at.OnInter? ==> n.inter.present)
    ensures PassesOn(n, at, f, to) <==>
            && Admitted(n, at, f) && to != at && (to.OnInter? ==> n.inter.present)
            && (at.OnRing? && to.OnRing? ==> !Closed(n, f)) && Lets(n, at, f, to)
  {
    AdmittedIff(n, at, f);
    if Admitted(n, at, f) {
      PlannedIff(n, at, f, to);
      ByRingIff(n, at, f, to);
      ByRoleIff(n, at, f, to);
      assert n.ForwardPlan(at, f) == n.InPlan(at, f);
    }
  }

  // ---- From one end of an interconnection to the other

  /** A node on the way of a frame, with the ports by which the frame comes and goes. */
  datatype Hop = Hop(n: Node, at: PortRef, to: PortRef)

  /** The frame leaves hop `h` on the wire. */
  predicate Carries(h: Hop, f: Pdu) { Relayed(h.to, true, f) in h.n.Out(Receive(h.at, f)) }

  /** A node that lets interconnect frames by: one without an interconnection role, in a ring it does not cut. */
  predicate Bystander(h: Hop) {
    && h.n.inter.role == InDisabled && h.at.OnRing? && h.to == OnRing(h.at.x.Other()) && h.n.IsUp(h.to)
    && (h.n.ring.role == MRM ==> !Cut(h.n))
  }

  /** An interconnection client, seen by a frame that crosses from its ring to the other one or back. */
  predicate Bridge(h: Hop) {
    h.n.inter.role == MIC && h.n.inter.present && h.at.OnRing? != h.to.OnRing? && h.n.IsUp(h.to)
  }

  /** The way of an InTest frame, which may enter a client through its blocked interconnection port. */
  predicate TestWay(hs: seq<Hop>) {
    forall i :: 0 <= i < |hs| ==>
      (Bystander(hs[i]) || Bridge(hs[i])) && hs[i].n.StateOf(hs[i].at) != Disabled &&
      (hs[i].at.OnRing? ==> hs[i].n.StateOf(hs[i].at) == Forwarding)
  }

  lemma TestCarried(hs: seq<Hop>, f: Pdu, i: nat)
    requires TestWay(hs) && f.InTest? && i < |hs|
    ensures Carries(hs[i], f)
  {
    InPassesIff(hs[i].n, hs[i].at, f, hs[i].to);
  }

  lemma OnlyTests(m: Node, t: nat)
    requires Mim(m) && m.inter.mim == ChkIo
    ensures var m' := m.Step(t, Expire(InTestT)); m'.ring == m.ring && m'.inter.mim == ChkIo
  {
  }

  /** The InTest frame that an interconnection manager sends out of its interconnection port crosses to the
      other ring, travels along it, crosses back and travels to a ring port of the manager, which then blocks
      its interconnection port. */
  lemma InterCloses(m: Node, hs: seq<Hop>, f: Pdu, t: nat, t': nat, x: RingPort)
    requires Mim(m) && m.inter.mim == ChkIo && m.inter.test.Armed? && m.inter.port.up
    requires m.ring.Port(x).state == Forwarding && TestWay(hs)
    requires f == InTest(m.cfg.inId, m.cfg.mac, Interconnect, false, m.inter.transitions)
    ensures Sent(OnInter, true, f) in m.Out(Expire(InTestT))
    ensures forall i :: 0 <= i < |hs| ==> Carries(hs[i], f)
    ensures var i := m.Step(t, Expire(InTestT)).Step(t', Receive(OnRing(x), f)).inter;
            i.mim == ChkIc && i.port.state == Blocked && i.testCurr == 0
  {
    InExpiryTests(m);
    forall i | 0 <= i < |hs| ensures Carries(hs[i], f) { TestCarried(hs, f, i); }
    var m1 := m.Step(t, Expire(InTestT));
    MimStep(m, t, Expire(InTestT));
    OnlyTests(m, t);
    SeenCloses(m1, t', Receive(OnRing(x), f));
  }

  /** The way of a report about an interconnection link, which blocked ports let in and interconnection
      clients take from their rings. */
  predicate ReportWay(hs: seq<Hop>) {
    forall i :: 0 <= i < |hs| ==>
      (Bystander(hs[i]) || (Bridge(hs[i]) && hs[i].at.OnRing?)) && hs[i].n.StateOf(hs[i].at) != Disabled
  }

  lemma ReportCarried(hs: seq<Hop>, f: Pdu, i: nat)
    requires ReportWay(hs) && f.InLink? && i < |hs|
    ensures Carries(hs[i], f)
  {
    InPassesIff(hs[i].n, hs[i].at, f, hs[i].to);
  }

  /** The first report of a lost interconnection link on ring port `y`. */
  function LossReport(c: Config, y: RingPort): Pdu {
    InLink(false, c.mac, RoleOf(OnRing(y)), c.inId, WireMs(U32(c.inLinkMax * c.inLinkInterval)))
  }

  lemma ReportTold(c: Node, y: RingPort)
    requires MicAnnounce.Mic(c) && c.inter.mic != MicAcStat1 && c.ring.Port(y).up
    ensures Sent(OnRing(y), true, LossReport(c.cfg, y)) in c.Out(MicAnnounce.LinkEvent(c.cfg, false))
  {
    var e := MicAnnounce.LinkEvent(c.cfg, false);
    MicAnnounce.Begins(c, 0, false);
    var three := MicAnnounce.ChangeFrames(c.Step(0, e), false, c.cfg.inLinkMax);
    assert c.Step(0, e).ring == c.ring && c.Step(0, e).cfg == c.cfg;
    assert three[0] in three && three[1] in three;
    assert y == c.ring.primary || y == c.ring.primary.Other();
  }

  lemma ReportHeard(m: Node, t: nat, at: PortRef, f: Pdu)
    requires Mim(m) && m.inter.mim == ChkIc && m.StateOf(at) != Disabled
    requires f.InLink? && !f.up && f.id == m.cfg.inId
    ensures var i := m.Step(t, Receive(at, f)).inter; i.mim == ChkIo && i.port.state == Forwarding
  {
    AdmittedIff(m, at, f);
    ReportedLossOpens(m, t, Receive(at, f));
  }

  /** An interconnection client that loses its link tells both ring ports; the frame travels along its ring,
      crosses to the other one where it meets a bridge, and opens the interconnection port of the manager. */
  lemma InterLossOpens(c: Node, m: Node, hs: seq<Hop>, t: nat, y: RingPort, at: PortRef)
    requires MicAnnounce.Mic(c) && c.inter.mic != MicAcStat1 && c.ring.Port(y).up
    requires Mim(m) && m.inter.mim == ChkIc && m.cfg.inId == c.cfg.inId && m.StateOf(at) != Disabled
    requires ReportWay(hs)
    ensures Sent(OnRing(y), true, LossReport(c.cfg, y)) in c.Out(MicAnnounce.LinkEvent(c.cfg, false))
    ensures forall i :: 0 <= i < |hs| ==> Carries(hs[i], LossReport(c.cfg, y))
    ensures var i := m.Step(t, Receive(at, LossReport(c.cfg, y))).inter;
            i.mim == ChkIo && i.port.state == Forwarding
  {
    ReportTold(c, y);
    var f := LossReport(c.cfg, y);
    forall i | 0 <= i < |hs| ensures Carries(hs[i], f) { ReportCarried(hs, f, i); }
    ReportHeard(m, t, at, f);
  }
}
