/** What the machines owe their neighbours: the frames that must go out whenever a timer is armed, a denial
    is due or a role is given up. */
module Duties {
  import opened MrpTypes
  import opened EtherAddr
  import opened MrpRing
  import opened MrpNode
  import opened MrmInvariants
  import opened InterInvariants
  import opened Election

  // ---- Test frames of a manager

  /** Test frames with the state and count of `n` leave by both ring ports, whose links are those of `r`. */
  predicate Tested(n: Node, r: Ring, os: seq<Output>) {
    forall x: RingPort ::
      Sent(OnRing(x), r.Port(x).up,
           Test(n.cfg.prio, n.cfg.mac, RoleOf(OnRing(x)), n.ring.mrm == ChkRc, n.ring.transitions)) in os
  }

  lemma TestFramesTest(n: Node, pre: seq<Output>, post: seq<Output>)
    ensures Tested(n, n.ring, pre + n.TestFrames() + post)
  {
    var two := n.TestFrames();
    forall x: RingPort
      ensures Sent(OnRing(x), n.ring.Port(x).up,
                   Test(n.cfg.prio, n.cfg.mac, RoleOf(OnRing(x)), n.ring.mrm == ChkRc, n.ring.transitions)) in two
    {
      assert x == n.ring.primary || x == n.ring.primary.Other();
      assert two[0] in two && two[1] in two;
    }
  }

  lemma AmongTested(n: Node, r: Ring, pre: seq<Output>, os: seq<Output>)
    requires Tested(n, r, os)
    ensures Tested(n, r, pre + os)
  {
    forall x: RingPort
      ensures Sent(OnRing(x), r.Port(x).up,
                   Test(n.cfg.prio, n.cfg.mac, RoleOf(OnRing(x)), n.ring.mrm == ChkRc, n.ring.transitions)) in pre + os
    {
    }
  }

  /** Whenever the test timer of a manager expires, both test frames go out. */
  lemma ExpiryTests(n: Node)
    requires MrmInv(n.cfg, n.ring) && n.ring.mrm != MrmAcStat1
    ensures Tested(n, n.ring, n.Out(Expire(RingTestT)))
  {
    if n.ring.mrm == ChkRc && n.ring.testCurr >= n.ring.testCurrMax {
      TestFramesTest(n, n.TopoBurst(n.cfg.topoInterval), []);
      assert n.Out(Expire(RingTestT)) == n.TopoBurst(n.cfg.topoInterval) + n.TestFrames() + [];
    } else {
      TestFramesTest(n, [], []);
      assert n.Out(Expire(RingTestT)) == [] + n.TestFrames() + [];
    }
  }

  lemma FrameTests(n: Node, t: nat, f: Pdu)
    requires MrmInv(n.cfg, n.ring) && n.inter.role != MIM
    requires n.ring.Recv(n.cfg, t, n.inter.role, f).test != n.ring.test
    ensures exists post :: n.ProcessOut(f) == n.TestFrames() + post
  {
    assert f.Test? || f.Link?;
    if f.Test? {
      assert n.ProcessOut(f) == n.OwnTestOut();
      var post := if n.ring.mrm == PrmUp then [] else n.TopoBurst(if n.cfg.react then 0 else n.cfg.topoInterval);
      assert n.ProcessOut(f) == n.TestFrames() + post;
    } else {
      assert n.ProcessOut(f) == n.RecvLinkOut(f.up);
      assert n.RecvLinkOut(f.up) == n.TestFrames() + [] || n.RecvLinkOut(f.up) == n.TestFrames() + n.TopoBurst(0);
    }
  }

  /** Whenever a received frame makes a manager arm its test timer, both test frames go out. */
  lemma ArmingTests(n: Node, t: nat, at: PortRef, f: Pdu)
    requires FixedMrm(n.cfg, n.ring, n.inter)
    requires n.Step(t, Receive(at, f)).ring.test != n.ring.test
    ensures Tested(n, n.ring, n.Out(Receive(at, f)))
  {
    FrameTests(n, t, f);
    var post :| n.ProcessOut(f) == n.TestFrames() + post;
    TestFramesTest(n, [], post);
    assert n.ProcessOut(f) == [] + n.TestFrames() + post;
    AmongTested(n, n.ring, n.ForwardOut(at, f), n.ProcessOut(f));
  }

  lemma AtOnce(n: Node)
    ensures Flushed in n.TopoBurst(0)
    ensures forall y: RingPort :: Sent(OnRing(y), n.ring.Port(y).up, Topo(n.cfg.prio, n.cfg.mac, 0)) in n.TopoBurst(0)
  {
    var burst := n.TopoBurst(0);
    assert burst[0] in burst && burst[1] in burst && burst[2] in burst;
    forall y: RingPort ensures Sent(OnRing(y), n.ring.Port(y).up, Topo(n.cfg.prio, n.cfg.mac, 0)) in burst {
      assert y == n.ring.primary || y == n.ring.primary.Other();
    }
  }

  lemma LinkUpTests(n: Node, x: RingPort)
    requires MrmInv(n.cfg, n.ring) && (n.ring.mrm == MrmAcStat1 || (n.ring.mrm == PrmUp && x != n.ring.primary))
    ensures exists q: Node :: q.cfg == n.cfg && q.ring.mrm == n.ring.mrm && q.ring.transitions == n.ring.transitions &&
                              n.MrmPortLinkOut(x, true) == q.TestFrames() &&
                              (forall y: RingPort :: q.ring.Port(y) == n.ring.Port(y))
  {
    var q := if n.ring.mrm == MrmAcStat1 && x != n.ring.primary then n.(ring := n.ring.Swap()) else n;
    assert n.MrmPortLinkOut(x, true) == q.TestFrames();
  }

  /** A link that starts the test timer of a manager, or brings the second ring port, makes both test frames
      go out. */
  lemma LinkTests(n: Node, x: RingPort)
    requires FixedMrm(n.cfg, n.ring, n.inter)
    requires n.ring.mrm == MrmAcStat1 || (n.ring.mrm == PrmUp && x != n.ring.primary)
    ensures Tested(n, n.ring.SetOper(x, true), n.Out(LinkChange(OnRing(x), true)))
  {
    var m := n.(ring := n.ring.SetOper(x, true));
    LinkUpTests(m, x);
    var q: Node :| q.cfg == m.cfg && q.ring.mrm == m.ring.mrm && q.ring.transitions == m.ring.transitions &&
                   m.MrmPortLinkOut(x, true) == q.TestFrames() &&
                   (forall y: RingPort :: q.ring.Port(y) == m.ring.Port(y));
    TestFramesTest(q, [], []);
    assert n.Out(LinkChange(OnRing(x), true)) == [] + q.TestFrames() + [];
  }

  /** A ring that turns out to be closed makes everybody flush at once, if the manager reacts to link
      changes; otherwise a burst begins. */
  lemma ClosingAnnounces(n: Node, x: RingPort, f: Pdu)
    requires FixedMrm(n.cfg, n.ring, n.inter) && n.ring.mrm == ChkRo && n.cfg.react
    requires f.Test? && f.sa == n.cfg.mac
    ensures Flushed in n.Out(Receive(OnRing(x), f))
    ensures forall y: RingPort ::
              Sent(OnRing(y), n.ring.Port(y).up, Topo(n.cfg.prio, n.cfg.mac, 0)) in n.Out(Receive(OnRing(x), f))
  {
    var e := Receive(OnRing(x), f);
    MacEqualIsEquality(f.sa, n.cfg.mac);
    assert n.Passes(e);
    AtOnce(n);
    assert n.Out(e) == n.TestFrames() + n.TopoBurst(0);
  }

  /** A manager that reacts to link changes makes everybody flush at once when it hears of one in CHK_RC. */
  lemma ReactingFlushes(n: Node, x: RingPort, f: Pdu)
    requires FixedMrm(n.cfg, n.ring, n.inter) && n.ring.mrm == ChkRc && n.cfg.react && f.Link?
    ensures Flushed in n.Out(Receive(OnRing(x), f))
    ensures forall y: RingPort ::
              Sent(OnRing(y), n.ring.Port(y).up, Topo(n.cfg.prio, n.cfg.mac, 0)) in n.Out(Receive(OnRing(x), f))
  {
    assert n.Passes(Receive(OnRing(x), f));
    AtOnce(n);
    assert n.Out(Receive(OnRing(x), f)) == n.TopoBurst(0);
  }

  /** A manager that hears of a link change, and has not sent extra test frames since its test timer last
      expired, sends them and tests again after the short interval; in PRM_UP with clients that can block
      their ports, after the normal one. A second time it waits for the timer. */
  lemma LinkFramePrompts(n: Node, t: nat, x: RingPort, f: Pdu)
    requires FixedMrm(n.cfg, n.ring, n.inter) && f.Link?
    requires match n.ring.mrm
             case MrmAcStat1 => false
             case PrmUp => f.up || n.cfg.blocked != 0
             case ChkRo => !(f.up && n.cfg.blocked == 0)
             case ChkRc => !n.cfg.react && n.cfg.blocked != 0
    ensures var r := n.Step(t, Receive(OnRing(x), f)).ring;
            var us := if n.ring.mrm == PrmUp && n.cfg.blocked != 0 then n.cfg.testInterval else n.cfg.testShort;
            && r.mrm == n.ring.mrm && r.p == n.ring.p && r.s == n.ring.s && r.addTest
            && r.test == (if n.ring.addTest then n.ring.test else Armed(us, t + us))
            && (!n.ring.addTest ==> Tested(n, n.ring, n.Out(Receive(OnRing(x), f))))
  {
    assert n.Passes(Receive(OnRing(x), f));
    if !n.ring.addTest {
      var post := if n.ring.mrm == PrmUp && n.cfg.blocked == 0 then n.TopoBurst(0) else [];
      TestFramesTest(n, [], post);
      assert n.Out(Receive(OnRing(x), f)) == [] + n.TestFrames() + post;
    }
  }

  /** Where clients cannot block their ports, everybody flushes as well. */
  lemma LinkFrameFlushes(n: Node, x: RingPort, f: Pdu)
    requires FixedMrm(n.cfg, n.ring, n.inter) && f.Link? && f.up && n.cfg.blocked == 0 && n.ring.mrm == PrmUp
    ensures Flushed in n.Out(Receive(OnRing(x), f))
    ensures forall y: RingPort ::
              Sent(OnRing(y), n.ring.Port(y).up, Topo(n.cfg.prio, n.cfg.mac, 0)) in n.Out(Receive(OnRing(x), f))
  {
    assert n.Passes(Receive(OnRing(x), f));
    assert n.ForwardOut(OnRing(x), f) == [];
    AtOnce(n);
    assert n.Out(Receive(OnRing(x), f)) == n.ExtraTestOut() + n.TopoBurst(0);
  }

  /** There, a link that comes up closes an open ring at once. */
  lemma LinkFrameCloses(n: Node, t: nat, x: RingPort, f: Pdu)
    requires FixedMrm(n.cfg, n.ring, n.inter) && f.Link? && f.up && n.cfg.blocked == 0 && n.ring.mrm == ChkRo
    ensures var r := n.Step(t, Receive(OnRing(x), f)).ring;
            var us := if n.ring.addTest then n.cfg.testInterval else n.cfg.testShort;
            && r.mrm == ChkRc && r.p == n.ring.p && r.s == PortRec(Blocked, n.ring.s.up)
            && r.testCurr == 0 && r.addTest && r.test == Armed(us, t + us)
  {
    assert n.Passes(Receive(OnRing(x), f));
  }

  /** Both neighbours are tested then, and everybody flushes. */
  lemma ClosingTells(n: Node, x: RingPort, f: Pdu)
    requires FixedMrm(n.cfg, n.ring, n.inter) && f.Link? && f.up && n.cfg.blocked == 0 && n.ring.mrm == ChkRo
    ensures Tested(n, n.ring, n.Out(Receive(OnRing(x), f))) && Flushed in n.Out(Receive(OnRing(x), f))
  {
    assert n.Passes(Receive(OnRing(x), f));
    assert n.ForwardOut(OnRing(x), f) == [];
    assert n.RecvLinkOut(true) == n.TestFrames() + n.TopoBurst(0);
    AtOnce(n);
    TestFramesTest(n, [], n.TopoBurst(0));
    assert n.Out(Receive(OnRing(x), f)) == [] + n.TestFrames() + n.TopoBurst(0);
  }

  /** A manager that hears of an interconnect topology change without delay makes everybody flush, too, unless
      it is announcing. */
  lemma InTopoFlushes(n: Node, x: RingPort, f: Pdu)
    requires FixedMrm(n.cfg, n.ring, n.inter) && n.ring.topo.Idle? && f.InTopo? && f.interval == 0
    ensures Flushed in n.Out(Receive(OnRing(x), f))
    ensures forall y: RingPort ::
              Sent(OnRing(y), n.ring.Port(y).up, Topo(n.cfg.prio, n.cfg.mac, 0)) in n.Out(Receive(OnRing(x), f))
  {
    assert n.Passes(Receive(OnRing(x), f));
    AtOnce(n);
    assert n.Out(Receive(OnRing(x), f)) == n.ForwardOut(OnRing(x), f) + n.TopoBurst(0);
  }

  // ---- The election

  /** An auto-manager that is manager flushes when another manager says so. */
  lemma AutoManagerFlushes(n: Node, t: nat, at: PortRef, f: Pdu)
    requires n.cfg.mra && n.ring.role == MRM && n.Passes(Receive(at, f)) && f.Topo? && f.sa != n.cfg.mac
    ensures n.Step(t, Receive(at, f)).ring.clearFdb == Timer.Again(t, f.interval * 1000)
    ensures Flushed in n.Out(Receive(at, f)) <==> f.interval == 0
  {
    MacEqualIsEquality(f.sa, n.cfg.mac);
    assert n.ForwardOut(at, f) == [];
  }

  /** An auto-manager that is manager denies, on both ring ports, exactly the foreign test frames whose
      sender does not win against it. */
  lemma DeniesIff(n: Node, at: PortRef, f: Pdu, x: RingPort)
    requires n.cfg.mra && n.ring.role == MRM && n.Passes(Receive(at, f)) && f.Test? && f.sa != n.cfg.mac
    ensures var o := Sent(OnRing(x), n.ring.Port(x).up, Nack(n.cfg.prio, n.cfg.mac, 0, f.sa));
            var wins := f.prio < n.cfg.prio || (f.prio == n.cfg.prio && Lower(f.sa, n.cfg.mac));
            o in n.Out(Receive(at, f)) <==> !wins
  {
    MacEqualIsEquality(f.sa, n.cfg.mac);
    SpelledOrder(f.sa, n.cfg.mac);
    var two := n.SendRing(Nack(n.cfg.prio, n.cfg.mac, 0, f.sa));
    assert two[0] in two && two[1] in two;
    assert x == n.ring.primary || x == n.ring.primary.Other();
    assert n.ForwardOut(at, f) == [];
    assert n.Out(Receive(at, f)) == n.ForeignTestOut(f.prio, f.sa);
  }

  /** A manager that gives in tells both neighbours which manager it has heard of: the one that denied it,
      or a better one from before. */
  lemma GivingInTells(n: Node, at: PortRef, f: Pdu, x: RingPort)
    requires n.ring.role == MRM && Obeys(n, Receive(at, f))
    ensures var known := f.prio < n.ring.ringPrio || (f.prio == n.ring.ringPrio && Lower(f.sa, n.ring.ringMac));
            var p, m := if known then f.prio else n.ring.ringPrio, if known then f.sa else n.ring.ringMac;
            Sent(OnRing(x), n.ring.Port(x).up, Propagate(n.cfg.prio, n.cfg.mac, p, m)) in n.Out(Receive(at, f))
  {
    MacEqualIsEquality(f.sa, n.cfg.mac);
    MacEqualIsEquality(f.otherSa, n.cfg.mac);
    SpelledOrder(f.sa, n.ring.ringMac);
    var h := n.ring.HostAfter(f.prio, f.sa);
    var two := n.SendRing(Propagate(n.cfg.prio, n.cfg.mac, h.0, h.1));
    assert two[0] in two && two[1] in two;
    assert x == n.ring.primary || x == n.ring.primary.Other();
    assert n.ForwardOut(at, f) == [];
    assert n.Out(Receive(at, f)) == two;
  }

  /** A manager that gives in goes on as the client whose ports are as its own were: with one link in DE_IDLE,
      with two in PT_IDLE, where both ports forward. It announces nothing any more, and its test timer goes
      on, to watch for the manager it gave in to. */
  lemma GivesInto(n: Node, t: nat, at: PortRef, f: Pdu)
    requires n.ring.role == MRM && Obeys(n, Receive(at, f)) && PortTable(n.ring)
    ensures var r := n.Step(t, Receive(at, f)).ring;
            && r.role == MRC && r.mrc == (if n.ring.mrm == PrmUp then DeIdle else PtIdle)
            && r.p == n.ring.p && r.p.state == Forwarding && r.s.up == n.ring.s.up
            && r.s.state == (if r.mrc == PtIdle then Forwarding else Blocked)
            && r.topo.Idle? && !r.topoRunning && r.test == n.ring.test && r.monCurr == 0
            && r.linkCurrMax == n.cfg.linkMax
  {
    MacEqualIsEquality(f.sa, n.cfg.mac);
    MacEqualIsEquality(f.otherSa, n.cfg.mac);
  }

  // ---- Interconnection

  /** The frame that a port of `n` gets, on each of the three ports. */
  predicate OnAll(n: Node, f: PortRole -> Pdu, os: seq<Output>) {
    && (forall x: RingPort :: Sent(OnRing(x), n.ring.Port(x).up, f(RoleOf(OnRing(x)))) in os)
    && Sent(OnInter, n.inter.present && n.inter.port.up, f(Interconnect)) in os
  }

  lemma ThreePorts(n: Node, f: PortRole -> Pdu, pre: seq<Output>, post: seq<Output>)
    ensures OnAll(n, f, pre + [n.Send(n.PRef(), f(RoleOf(n.PRef()))), n.Send(n.SRef(), f(RoleOf(n.SRef()))),
                               n.Send(OnInter, f(Interconnect))] + post)
  {
    var three := [n.Send(n.PRef(), f(RoleOf(n.PRef()))), n.Send(n.SRef(), f(RoleOf(n.SRef()))),
                  n.Send(OnInter, f(Interconnect))];
    assert three[0] in three && three[1] in three && three[2] in three;
    forall x: RingPort ensures Sent(OnRing(x), n.ring.Port(x).up, f(RoleOf(OnRing(x)))) in three {
      assert x == n.ring.primary || x == n.ring.primary.Other();
    }
  }

  /** Whenever the InTest timer of an interconnection manager with a link expires, InTest frames leave by all
      three ports and report its state. */
  lemma InExpiryTests(n: Node)
    requires InterInv(n.cfg, n.inter) && n.inter.role == MIM && n.inter.mim != MimAcStat1 && n.inter.test.Armed?
    ensures OnAll(n, r => InTest(n.cfg.inId, n.cfg.mac, r, n.inter.mim == ChkIc, n.inter.transitions),
                  n.Out(Expire(InTestT)))
  {
    var f := r => InTest(n.cfg.inId, n.cfg.mac, r, n.inter.mim == ChkIc, n.inter.transitions);
    if n.inter.mim == ChkIc && n.inter.testCurr >= n.inter.testCurrMax {
      ThreePorts(n, f, n.InTopoFrames(n.cfg.inTopoMax), []);
      assert n.Out(Expire(InTestT)) == n.InTopoFrames(n.cfg.inTopoMax) + n.InTestFrames() + [];
    } else {
      ThreePorts(n, f, [], []);
      assert n.Out(Expire(InTestT)) == [] + n.InTestFrames() + [];
    }
  }

  /** In RC mode the link of an interconnection manager that comes up makes InTest frames leave by all three
      ports; if it goes down again, they follow the announcement of a topology change. */
  lemma InLinkTests(n: Node, up: bool)
    requires InterInv(n.cfg, n.inter) && n.inter.role == MIM && n.cfg.inMode == RC
    requires up == (n.inter.mim == MimAcStat1)
    ensures var m := n.(inter := n.inter.(port := n.inter.port.(up := up)));
            var os := n.Out(LinkChange(OnInter, up));
            && OnAll(m, r => InTest(n.cfg.inId, n.cfg.mac, r, n.inter.mim == ChkIc, n.inter.transitions), os)
            && (!up ==> OnAll(m, r => InTopoFrame(n.cfg, n.cfg.inTopoMax), os))
  {
    var m := n.(inter := n.inter.(port := n.inter.port.(up := up)));
    var f := r => InTest(n.cfg.inId, n.cfg.mac, r, n.inter.mim == ChkIc, n.inter.transitions);
    if up {
      ThreePorts(m, f, [], []);
      assert n.Out(LinkChange(OnInter, up)) == [] + m.InTestFrames() + [];
    } else {
      ThreePorts(m, f, m.InTopoFrames(n.cfg.inTopoMax), []);
      ThreePorts(m, r => InTopoFrame(n.cfg, n.cfg.inTopoMax), [], m.InTestFrames());
      assert n.Out(LinkChange(OnInter, up)) == m.InTopoFrames(n.cfg.inTopoMax) + m.InTestFrames() + [];
      assert n.Out(LinkChange(OnInter, up)) == [] + m.InTopoFrames(n.cfg.inTopoMax) + m.InTestFrames();
    }
  }

  /** The announcement of `left` intervals by an interconnection manager. */
  function InTopoFrame(c: Config, left: nat): Pdu { InTopo(c.mac, c.inId, WireMs(U32(left * c.inTopoInterval))) }

  /** An expiry of the InTopo timer announces what the counter says on all three ports and counts down; the
      last one flushes, stops the timer and refills the counter. */
  lemma InTopoExpiry(n: Node, t: nat)
    requires n.inter.topo.Armed?
    ensures OnAll(n, r => InTopoFrame(n.cfg, n.inter.topoCurrMax), n.Out(Expire(InTopoT)))
    ensures Flushed in n.Out(Expire(InTopoT)) <==> n.inter.topoCurrMax == 0
    ensures var i := n.Step(t, Expire(InTopoT)).inter;
            if n.inter.topoCurrMax > 0 then i.topo.Armed? && i.topoCurrMax == n.inter.topoCurrMax - 1
            else i.topo.Idle? && i.topoCurrMax == n.cfg.inTopoMax - 1
  {
    var f := (r: PortRole) => InTopoFrame(n.cfg, n.inter.topoCurrMax);
    if n.inter.topoCurrMax > 0 {
      ThreePorts(n, f, [], []);
      assert n.Out(Expire(InTopoT)) == [] + n.InTopoFrames(n.inter.topoCurrMax) + [];
    } else {
      ThreePorts(n, f, [Flushed], []);
      assert n.Out(Expire(InTopoT)) == [Flushed] + n.InTopoFrames(0) + [];
    }
  }

  lemma ReportTells(n: Node, t: nat, f: Pdu)
    requires InterInv(n.cfg, n.inter) && n.inter.role == MIM
    requires n.inter.Recv(n.cfg, t, f).topo != n.inter.topo
    ensures exists post :: n.ProcessOut(f) == n.InTopoFrames(n.cfg.inTopoMax) + post
  {
    assert f.InTest? || f.InLink?;
    if f.InTest? {
      assert n.ProcessOut(f) == n.InTopoFrames(n.cfg.inTopoMax) + n.InTestFrames();
    } else {
      assert n.ProcessOut(f) == n.InTopoFrames(n.cfg.inTopoMax) + [];
    }
  }

  /** Whenever a received frame makes an interconnection manager arm its InTopo timer, it announces
      `inTopoMax` intervals on all three ports. */
  lemma InArmingAnnounces(n: Node, t: nat, at: PortRef, f: Pdu)
    requires InterInv(n.cfg, n.inter) && n.inter.role == MIM
    requires n.Step(t, Receive(at, f)).inter.topo != n.inter.topo
    ensures OnAll(n, r => InTopoFrame(n.cfg, n.cfg.inTopoMax), n.Out(Receive(at, f)))
  {
    ReportTells(n, t, f);
    var post :| n.ProcessOut(f) == n.InTopoFrames(n.cfg.inTopoMax) + post;
    var topo := (r: PortRole) => InTopoFrame(n.cfg, n.cfg.inTopoMax);
    ThreePorts(n, topo, [], post);
    assert n.ProcessOut(f) == [] + n.InTopoFrames(n.cfg.inTopoMax) + post;
    AmongAll(n, topo, n.ForwardOut(at, f), n.ProcessOut(f));
  }

  lemma AmongAll(n: Node, f: PortRole -> Pdu, pre: seq<Output>, os: seq<Output>)
    requires OnAll(n, f, os)
    ensures OnAll(n, f, pre + os)
  {
    forall x: RingPort ensures Sent(OnRing(x), n.ring.Port(x).up, f(RoleOf(OnRing(x)))) in pre + os {
    }
  }

  function ClosingNews(n: Node, f: Pdu): seq<Output> {
    if f.InTest? && n.inter.mim == ChkIo then n.InTopoFrames(n.cfg.inTopoMax) else []
  }

  lemma InFrameAnswer(n: Node, f: Pdu)
    requires n.inter.role == MIM
    requires (f.InTest? && n.inter.mim != ChkIc) || (f.InLink? && f.up && n.inter.mim == ChkIo)
    requires f.id == n.cfg.inId
    ensures n.ProcessOut(f) == ClosingNews(n, f) + n.InTestFrames() + []
  {
  }

  /** An own InTest frame that closes the interconnection, or a report that a link has come up while it is
      open, makes InTest frames leave by all three ports. The timer is armed for the next ones. */
  lemma InFrameTests(n: Node, at: PortRef, f: Pdu)
    requires n.inter.role == MIM && n.Passes(Receive(at, f))
    requires (f.InTest? && n.inter.mim != ChkIc) || (f.InLink? && f.up && n.inter.mim == ChkIo)
    requires f.id == n.cfg.inId
    ensures OnAll(n, r => InTest(n.cfg.inId, n.cfg.mac, r, false, n.inter.transitions), n.Out(Receive(at, f)))
  {
    var r := (r: PortRole) => InTest(n.cfg.inId, n.cfg.mac, r, false, n.inter.transitions);
    InFrameAnswer(n, f);
    ThreePorts(n, r, ClosingNews(n, f), []);
    AmongAll(n, r, n.ForwardOut(at, f), n.ProcessOut(f));
  }

  lemma InFrameArms(n: Node, t: nat, at: PortRef, f: Pdu)
    requires n.inter.role == MIM && n.Passes(Receive(at, f))
    requires (f.InTest? && n.inter.mim != ChkIc) || (f.InLink? && f.up && n.inter.mim == ChkIo)
    requires f.id == n.cfg.inId
    ensures n.Step(t, Receive(at, f)).inter.test == Armed(n.cfg.inTestInterval, t + n.cfg.inTestInterval)
  {
  }

  /** In LC mode a link that comes up makes an interconnection manager poll the link state on both ring ports,
      at once and `inStatusMax` times more. */
  lemma PollStarts(n: Node, t: nat, x: RingPort)
    requires InterInv(n.cfg, n.inter) && n.inter.role == MIM && n.cfg.inMode == LC && n.inter.mim == MimAcStat1
    ensures var o := Sent(OnRing(x), n.ring.Port(x).up, InLinkStatus(n.cfg.mac, RoleOf(OnRing(x)), n.cfg.inId));
            o in n.Out(CfmChange(false))
    ensures var i := n.Step(t, CfmChange(false)).inter;
            && i.status == Armed(n.cfg.inStatusInterval, t + n.cfg.inStatusInterval)
            && i.statusCurrMax == n.cfg.inStatusMax
  {
    var two := n.Out(CfmChange(false));
    assert two[0] in two && two[1] in two;
    assert x == n.ring.primary || x == n.ring.primary.Other();
  }

  /** A loss ends the polls, unless the interconnection is closed. */
  lemma PollStops(n: Node, t: nat)
    requires InterInv(n.cfg, n.inter) && n.inter.role == MIM && n.cfg.inMode == LC
    ensures n.Step(t, CfmChange(true)).inter.status == if n.inter.mim == ChkIo then Idle else n.inter.status
  {
  }

  /** A poll counts down and arms its timer again, but for the last ones if the interval left is 0 modulo
      2^32; the expiry after it stops the timer. */
  lemma PollExpiry(n: Node, t: nat, x: RingPort)
    requires n.inter.status.Armed?
    ensures var o := Sent(OnRing(x), n.ring.Port(x).up, InLinkStatus(n.cfg.mac, RoleOf(OnRing(x)), n.cfg.inId));
            o in n.Out(Expire(InLinkStatusT)) <==> n.inter.statusCurrMax > 0
    ensures var i := n.Step(t, Expire(InLinkStatusT)).inter;
            if n.inter.statusCurrMax > 0 then
              && i.statusCurrMax == n.inter.statusCurrMax - 1 && i.status.Armed?
              && (U32((n.inter.statusCurrMax - 1) * n.cfg.inStatusInterval) != 0 ==>
                    i.status == Armed(n.cfg.inStatusInterval, t + n.cfg.inStatusInterval))
            else i.status.Idle? && i.statusCurrMax == n.cfg.inStatusMax
  {
    var two := n.StatusFrames();
    assert two[0] in two && two[1] in two;
    assert x == n.ring.primary || x == n.ring.primary.Other();
  }
}
