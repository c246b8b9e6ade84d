/** One MRP instance as the program keeps it: a mutable record whose members the handlers of
    `state_machine.c` and `timer.c` update one after the other, sending frames in between, and ports
    on the heap that it reaches through references. Every handler is proved to make the transition and
    to send the frames that the value model gives. */
module MrpInstance {
  import opened MrpTypes
  import opened EtherAddr
  import opened MrpRing
  import opened MrpInter
  import opened MrpNode
  import opened MrpSetup
  import opened MrmInvariants
  import opened InterInvariants
  import opened MrpPorts
  import MrpFrames

  /** `struct mrp`. Its members are grouped in two records, whose port members are not used: ports are
      reached through `ports` and `iPort`. What a handler sends is its result. */
  class Mrp {
    const cfg: Config
    const ports: RingPorts
    const iPort: Port?
    var ring: Ring
    var inter: Inter

    /** What the references lead to. */
    ghost var view: PortView
    ghost var inView: PortRec

    /** The ring references are distinct and are the two ports the instance was added with. */
    ghost predicate Wired()
      reads this`view, ports, ports.a, ports.b
    {
      ports.Linked() && view == ports.View()
    }

    ghost predicate InWired()
      reads this`inView, iPort
    {
      if iPort == null then inView == UNUSED else iPort.role == Interconnect && inView == iPort.Rec()
    }

    /** The two halves of the instance, with the ports they refer to. */
    ghost function Now(): Ring
      reads this`ring, this`view
    {
      view.In(ring)
    }

    ghost function InNow(): Inter
      reads this`inter, this`inView
    {
      inter.(present := iPort != null, port := inView)
    }

    ghost function Snap(): Node
      reads this
    {
      Node(cfg, Now(), InNow())
    }

    /** The references are in order, and so are the interconnection machines; in particular `i_port`
        exists whenever it is used. */
    ghost predicate Valid()
      reads this, ports, ports.a, ports.b, iPort
    {
      Wired() && InWired() && InterInv(cfg, InNow())
    }

    /** `p` is one of the ring ports. */
    ghost predicate Mine(p: Port)
      reads ports
    {
      p == ports.pPort || p == ports.sPort
    }

    ghost function Name(p: Port): RingPort { if p == ports.a then PortA else PortB }

    /** `mrp_create`, the initialisation of the ports and, in LC mode, `mrp_start_cfm`. */
    constructor (c: Config, present: bool, now: nat)
      ensures fresh(ports) && fresh(ports.a) && fresh(ports.b) && (iPort != null ==> fresh(iPort))
      ensures cfg == c && Valid()
      ensures Now() == CreatedRing(c) && InNow() == CreatedInter(c, present, now)
    {
      cfg := c;
      ports := new RingPorts();
      if present {
        iPort := new Port(Interconnect);
      } else {
        iPort := null;
      }
      ring := CreatedRing(c);
      inter := CreatedInter(c, present, now);
      new;
      view := ports.View();
      inView := UNUSED;
    }

    // ---- Ports

    /** `mrp_port_set_state` on `p_port`. */
    method SetPrimary(state: PortState)
      requires Wired()
      modifies ports.pPort`state, this`view
      ensures Wired() && view == old(view).(p := old(view).p.(state := state))
    {
      ports.SetState(ports.pPort, state);
      view := ports.View();
    }

    /** `mrp_port_set_state` on `s_port`. */
    method SetSecondary(state: PortState)
      requires Wired()
      modifies ports.sPort`state, this`view
      ensures Wired() && view == old(view).(s := old(view).s.(state := state))
    {
      ports.SetState(ports.sPort, state);
      view := ports.View();
    }

    method SetInState(state: PortState)
      requires InWired() && iPort != null
      modifies iPort`state, this`inView
      ensures InWired() && inView == old(inView).(state := state)
    {
      iPort.state := state;
      inView := iPort.Rec();
    }

    method BecomePrimary(p: Port)
      requires Wired() && p == ports.sPort
      modifies ports, this`view
      ensures Wired() && view == old(view).Swap() && p == ports.pPort
    {
      ports.BecomePrimary(p);
      view := ports.View();
    }

    method StepDown(p: Port)
      requires Wired() && p == ports.pPort
      modifies ports, this`view
      ensures Wired() && view == old(view).Swap() && p == ports.sPort
    {
      ports.StepDown(p);
      view := ports.View();
    }

    // ---- Requests that send frames and arm a timer

    /** A frame sent on both ring ports. */
    method SendRing(f: Pdu) returns (o: seq<Output>)
      requires Wired()
      ensures o == Snap().SendRing(f)
    {
      o := [ports.pPort.Frame(f), ports.sPort.Frame(f)];
    }

    method SendRingTest(p: Port) returns (f: Output)
      requires Wired() && Mine(p)
      ensures var n := Snap();
              var to := if p == ports.pPort then n.PRef() else n.SRef();
              f == n.Send(to, n.TestPdu(to))
    {
      f := p.Frame(Test(cfg.prio, cfg.mac, p.role, ring.mrm == ChkRc, ring.transitions));
    }

    method RingTestReq(now: nat, us: nat) returns (o: seq<Output>)
      requires Wired()
      modifies this`ring
      ensures ring == old(ring).(test := Timer.Again(now, us))
      ensures o == old(Snap()).TestFrames()
    {
      var f := SendRingTest(ports.pPort);
      var g := SendRingTest(ports.sPort);
      o := [f, g];
      ring := ring.(test := Timer.Again(now, us));
    }

    method RingTopoSend(us: nat) returns (o: seq<Output>)
      requires Wired()
      ensures o == Snap().TopoFrames(us)
    {
      o := SendRing(Topo(cfg.prio, cfg.mac, WireMs(us)));
    }

    method RingTopoReq(now: nat, us: nat) returns (o: seq<Output>)
      requires Wired()
      modifies this`ring
      ensures us == 0 ==> ring == old(ring)
      ensures us != 0 ==> ring == old(ring).(topoRunning := true, topo := Timer.Again(now, cfg.topoInterval))
      ensures o == old(Snap()).TopoBurst(us)
    {
      o := RingTopoSend(U32(us * cfg.topoMax));
      if us == 0 {
        o := o + [Flushed];
      } else {
        ring := ring.(topoRunning := true);
        ring := ring.(topo := Timer.Again(now, cfg.topoInterval));
      }
    }

    /** Test frames, then an announcement or, for a zero interval, a flush. */
    method TestThenTopo(now: nat, testUs: nat, topoUs: nat) returns (o: seq<Output>)
      requires Wired()
      modifies this`ring
      ensures ring == old(ring).(test := Timer.Again(now, testUs), topoRunning := old(ring).topoRunning || topoUs != 0,
                                 topo := if topoUs == 0 then old(ring).topo else Timer.Again(now, cfg.topoInterval))
      ensures o == old(Snap()).TestFrames() + old(Snap()).TopoBurst(topoUs)
    {
      ghost var n := Snap();
      o := RingTestReq(now, testUs);
      var topos := RingTopoReq(now, topoUs);
      assert topos == n.TopoBurst(topoUs);
      return o + topos;
    }

    method RingLinkReq(up: bool, count: nat) returns (o: seq<Output>)
      requires Wired()
      ensures o == [Snap().LinkFrame(up, count)]
    {
      var p := ports.pPort;
      o := [p.Frame(Link(up, cfg.mac, p.role, WireMs(U32(count * cfg.linkInterval)), cfg.blocked))];
    }

    method ClearFdbStart(now: nat, us: nat) returns (o: seq<Output>)
      modifies this`ring
      ensures ring == old(ring).(clearFdb := Timer.Again(now, us))
      ensures o == old(Snap()).FlushIf(us == 0)
    {
      ring := ring.(clearFdb := Timer.Again(now, us));
      o := [];
      if us == 0 {
        o := [Flushed];
      }
    }

    method InTestReq(now: nat) returns (o: seq<Output>)
      requires Wired() && InWired() && iPort != null
      modifies this`inter
      ensures inter == old(inter).(test := Timer.Again(now, cfg.inTestInterval))
      ensures o == old(Snap()).InTestFrames()
    {
      var p, s := ports.pPort, ports.sPort;
      var closed := inter.mim == ChkIc;
      o := [p.Frame(InTest(cfg.inId, cfg.mac, p.role, closed, inter.transitions)),
            s.Frame(InTest(cfg.inId, cfg.mac, s.role, closed, inter.transitions)),
            iPort.Frame(InTest(cfg.inId, cfg.mac, iPort.role, closed, inter.transitions))];
      inter := inter.(test := Timer.Again(now, cfg.inTestInterval));
    }

    method InTopoSend(count: nat) returns (o: seq<Output>)
      requires Wired() && InWired() && iPort != null
      ensures o == Snap().InTopoFrames(count)
    {
      var f := InTopo(cfg.mac, cfg.inId, WireMs(U32(count * cfg.inTopoInterval)));
      o := [ports.pPort.Frame(f), ports.sPort.Frame(f), iPort.Frame(f)];
    }

    method InTopoReq(now: nat) returns (o: seq<Output>)
      requires Wired() && InWired() && iPort != null
      modifies this`inter
      ensures inter == old(inter).(topo := Timer.Again(now, cfg.inTopoInterval))
      ensures o == old(Snap()).InTopoFrames(cfg.inTopoMax)
    {
      o := InTopoSend(cfg.inTopoMax);
      inter := inter.(topo := Timer.Again(now, cfg.inTopoInterval));
    }

    method InLinkReq(up: bool, count: nat) returns (o: seq<Output>)
      requires Wired() && InWired() && iPort != null
      ensures o == Snap().InLinkFrames(up, count)
    {
      var p, s := ports.pPort, ports.sPort;
      var ms := WireMs(U32(count * cfg.inLinkInterval));
      o := [p.Frame(InLink(up, cfg.mac, p.role, cfg.inId, ms)),
            s.Frame(InLink(up, cfg.mac, s.role, cfg.inId, ms)),
            iPort.Frame(InLink(up, cfg.mac, iPort.role, cfg.inId, ms))];
    }

    method InLinkStatusReq(now: nat, us: nat) returns (o: seq<Output>)
      requires Wired()
      modifies this`inter
      ensures us == 0 ==> inter == old(inter)
      ensures us != 0 ==> inter == old(inter).(status := Timer.Again(now, cfg.inStatusInterval))
      ensures o == old(Snap()).StatusFrames()
    {
      var p, s := ports.pPort, ports.sPort;
      o := [p.Frame(InLinkStatus(cfg.mac, p.role, cfg.inId)), s.Frame(InLinkStatus(cfg.mac, s.role, cfg.inId))];
      if us != 0 {
        inter := inter.(status := Timer.Again(now, cfg.inStatusInterval));
      }
    }

    method SetMrmState(state: MrmState)
      modifies this`ring
      ensures ring == old(ring).(mrm := state, noTc := false)
    {
      ring := ring.(mrm := state);
      ring := ring.(noTc := false);
    }

    method ResetTestCounters()
      modifies this`ring
      ensures ring == old(ring).(testCurrMax := cfg.testMax - 1, testCurr := 0)
    {
      ring := ring.(testCurrMax := cfg.testMax - 1);
      ring := ring.(testCurr := 0);
    }

    /** The manager has seen its own test frame. */
    method Observe()
      modifies this`ring
      ensures ring == old(ring).(testCurrMax := cfg.testMax - 1, testCurr := 0, noTc := false)
    {
      ring := ring.(testCurrMax := cfg.testMax - 1);
      ring := ring.(testCurr := 0);
      ring := ring.(noTc := false);
    }

    /** The manager has missed one test frame too many. */
    method GiveUp()
      modifies this`ring
      ensures ring == old(ring).(testCurrMax := cfg.testMax - 1, testCurr := 0, addTest := false)
    {
      ring := ring.(testCurrMax := cfg.testMax - 1);
      ring := ring.(testCurr := 0);
      ring := ring.(addTest := false);
    }

    /** The manager leaves CHK_RC. */
    method LeaveClosed(state: MrmState)
      modifies this`ring
      ensures ring == old(ring).(transitions := Inc16(old(ring).transitions), mrm := state, noTc := false)
    {
      ring := ring.(transitions := Inc16(ring.transitions));
      SetMrmState(state);
    }

    // ---- Received ring frames

    method MrmRecvRingTest(now: nat) returns (o: seq<Output>)
      requires Wired()
      modifies this`ring, this`view, ports.a, ports.b
      ensures Wired() && Now() == old(Now()).RecvOwnTest(cfg, now)
      ensures o == old(Snap()).OwnTestOut()
    {
      ghost var n := Snap();
      match ring.mrm
      case MrmAcStat1 =>
        return [];
      case PrmUp =>
        Observe();
        o := RingTestReq(now, cfg.testInterval);
        assert o == n.TestFrames();
        SetMrmState(ChkRc);
        return;
      case ChkRo =>
        o := CloseRing(now);
        return;
      case ChkRc =>
        Observe();
        return [];
    }

    method CloseRing(now: nat) returns (o: seq<Output>)
      requires Wired() && ring.mrm == ChkRo
      modifies this`ring, this`view, ports.a, ports.b
      ensures Wired() && Now() == old(Now()).RecvOwnTest(cfg, now)
      ensures o == old(Snap()).OwnTestOut()
    {
      ghost var n := Snap();
      SetSecondary(Blocked);
      Observe();
      var topoInterval := if cfg.react then 0 else cfg.topoInterval;
      o := TestThenTopo(now, cfg.testInterval, topoInterval);
      assert o == n.TestFrames() + n.TopoBurst(topoInterval);
      SetMrmState(ChkRc);
      return;
    }

    method MraRecvRingTest(prio: u16, sa: Mac) returns (o: seq<Output>)
      requires Wired()
      modifies this`ring
      ensures Now() == old(Now()).RecvForeignTest(cfg, prio, sa)
      ensures o == old(Snap()).ForeignTestOut(prio, sa)
    {
      if ring.role == MRM {
        if !Better(prio, sa, cfg.prio, cfg.mac) {
          o := SendRing(Nack(cfg.prio, cfg.mac, 0, sa));
          return;
        }
        return [];
      }
      if MacEqual(sa, ring.ringMac) {
        return [];
      }
      if Better(prio, sa, cfg.prio, cfg.mac) {
        ring := ring.(monCurr := 0);
      }
      ring := ring.(ringPrio := Swap16(prio));
      return [];
    }

    method RecvRingTest(now: nat, prio: u16, sa: Mac) returns (o: seq<Output>)
      requires Wired()
      modifies this`ring, this`view, ports.a, ports.b
      ensures Wired() && Now() == old(Now()).RecvTest(cfg, now, prio, sa)
      ensures o == old(Snap()).RecvTestOut(prio, sa)
    {
      if !MacEqual(sa, cfg.mac) {
        if !cfg.mra {
          return [];
        }
        o := MraRecvRingTest(prio, sa);
        return;
      }
      o := MrmRecvRingTest(now);
    }

    method EndCountdown(now: nat, ms: u16) returns (o: seq<Output>)
      requires Wired() && ring.mrc == PassThrough
      modifies this`ring, this`view, ports.a, ports.b
      ensures Wired() && Now() == old(Now()).MrcRecvTopo(cfg, now, ms)
      ensures o == old(Snap()).FlushIf(ms == 0)
    {
      ring := ring.(linkCurrMax := cfg.linkMax);
      ring := ring.(linkUp := Idle);
      SetSecondary(Forwarding);
      o := ClearFdbStart(now, ms * 1000);
      ring := ring.(mrc := PtIdle);
      return;
    }

    method MrcRecvRingTopo(now: nat, ms: u16) returns (o: seq<Output>)
      requires Wired()
      modifies this`ring, this`view, ports.a, ports.b
      ensures Wired() && Now() == old(Now()).MrcRecvTopo(cfg, now, ms)
      ensures o == old(Snap()).FlushIf(ms == 0 && old(ring).mrc != MrcAcStat1)
    {
      match ring.mrc
      case MrcAcStat1 =>
        return [];
      case DeIdle =>
        o := ClearFdbStart(now, ms * 1000);
        return;
      case PassThrough =>
        o := EndCountdown(now, ms);
        return;
      case DataExchange =>
        ring := ring.(linkCurrMax := cfg.linkMax);
        ring := ring.(linkDown := Idle);
        o := ClearFdbStart(now, ms * 1000);
        ring := ring.(mrc := DeIdle);
        return;
      case PtIdle =>
        o := ClearFdbStart(now, ms * 1000);
        return;
    }

    method RecvRingTopo(now: nat, sa: Mac, ms: u16) returns (o: seq<Output>)
      requires Wired()
      modifies this`ring, this`view, ports.a, ports.b
      ensures Wired() && Now() == old(Now()).RecvTopo(cfg, now, sa, ms)
      ensures o == old(Snap()).RecvTopoOut(sa, ms)
    {
      if cfg.mra && ring.role == MRM {
        if MacEqual(sa, cfg.mac) {
          return [];
        }
        o := ClearFdbStart(now, ms * 1000);
        return;
      }
      o := MrcRecvRingTopo(now, ms);
    }

    method AddTest(now: nat, us: nat) returns (o: seq<Output>)
      requires Wired()
      modifies this`ring
      ensures Now() == old(Now()).ExtraTest(now, us)
      ensures o == old(Snap()).ExtraTestOut()
    {
      ghost var n := Snap();
      if ring.addTest {
        return [];
      }
      ring := ring.(addTest := true);
      o := RingTestReq(now, us);
      assert o == n.TestFrames();
      return;
    }

    method PrmUpRecvRingLink(now: nat, up: bool) returns (o: seq<Output>)
      requires Wired() && ring.mrm == PrmUp
      modifies this`ring, this`view, ports.a, ports.b
      ensures Wired() && Now() == old(Now()).RecvLink(cfg, now, up)
      ensures o == old(Snap()).RecvLinkOut(up)
    {
      ghost var n := Snap();
      if cfg.blocked != 0 {
        o := AddTest(now, cfg.testInterval);
        return;
      }
      if !up {
        return [];
      }
      o := AddTest(now, cfg.testShort);
      var topos := RingTopoReq(now, 0);
      assert topos == n.TopoBurst(0);
      return o + topos;
    }

    method ReactToLinkUp(now: nat) returns (o: seq<Output>)
      requires Wired() && ring.mrm == ChkRo && cfg.blocked == 0
      modifies this`ring, this`view, ports.a, ports.b
      ensures Wired() && Now() == old(Now()).RecvLink(cfg, now, true)
      ensures o == old(Snap()).RecvLinkOut(true)
    {
      ghost var n := Snap();
      SetSecondary(Blocked);
      ResetTestCounters();
      o := TestThenTopo(now, if ring.addTest then cfg.testInterval else cfg.testShort, 0);
      assert o == n.TestFrames() + n.TopoBurst(0);
      ring := ring.(addTest := true);
      SetMrmState(ChkRc);
      return;
    }

    method ChkRoRecvRingLink(now: nat, up: bool) returns (o: seq<Output>)
      requires Wired() && ring.mrm == ChkRo
      modifies this`ring, this`view, ports.a, ports.b
      ensures Wired() && Now() == old(Now()).RecvLink(cfg, now, up)
      ensures o == old(Snap()).RecvLinkOut(up)
    {
      if !up || cfg.blocked != 0 {
        o := AddTest(now, cfg.testShort);
        return;
      }
      o := ReactToLinkUp(now);
      return;
    }

    method ReactToLinkDown(now: nat) returns (o: seq<Output>)
      requires Wired() && ring.mrm == ChkRc && cfg.react
      modifies this`ring, this`view, ports.a, ports.b
      ensures Wired() && Now() == old(Now()).RecvLink(cfg, now, false)
      ensures o == old(Snap()).RecvLinkOut(false)
    {
      ghost var n := Snap();
      SetSecondary(Forwarding);
      ring := ring.(transitions := Inc16(ring.transitions));
      o := RingTopoReq(now, 0);
      assert o == n.TopoBurst(0);
      SetMrmState(ChkRo);
      return;
    }

    method ChkRcRecvRingLink(now: nat, up: bool) returns (o: seq<Output>)
      requires Wired() && ring.mrm == ChkRc
      modifies this`ring, this`view, ports.a, ports.b
      ensures Wired() && Now() == old(Now()).RecvLink(cfg, now, up)
      ensures o == old(Snap()).RecvLinkOut(up)
    {
      ghost var n := Snap();
      if !cfg.react && cfg.blocked != 0 {
        o := AddTest(now, cfg.testShort);
        return;
      }
      if !up && cfg.react {
        o := ReactToLinkDown(now);
        return;
      }
      if up && cfg.react {
        ring := ring.(testCurrMax := cfg.testMax - 1);
        o := RingTopoReq(now, 0);
        assert o == n.TopoBurst(0);
        return;
      }
      return [];
    }

    method RecvRingLink(now: nat, up: bool) returns (o: seq<Output>)
      requires Wired()
      modifies this`ring, this`view, ports.a, ports.b
      ensures Wired() && Now() == old(Now()).RecvLink(cfg, now, up)
      ensures o == old(Snap()).RecvLinkOut(up)
    {
      match ring.mrm
      case MrmAcStat1 =>
        return [];
      case PrmUp =>
        o := PrmUpRecvRingLink(now, up);
        return;
      case ChkRo =>
        o := ChkRoRecvRingLink(now, up);
        return;
      case ChkRc =>
        o := ChkRcRecvRingLink(now, up);
        return;
    }

    method Demote()
      requires Wired()
      modifies this`ring
      ensures Now() == old(Now()).Demoted()
    {
      match ring.mrm
      case MrmAcStat1 =>
        return;
      case PrmUp =>
        ring := ring.(mrc := DeIdle);
        ring := ring.(role := MRC);
        return;
      case ChkRo =>
        ring := ring.(mrc := PtIdle);
        ring := ring.(role := MRC);
        return;
      case ChkRc =>
        ring := ring.(mrc := PtIdle);
        ring := ring.(role := MRC);
        return;
    }

    method HearFrom(prio: u16, sa: Mac)
      modifies this`ring
      ensures Now() == old(Now()).Heard(prio, sa)
    {
      if Better(prio, sa, ring.ringPrio, ring.ringMac) {
        ring := ring.(ringPrio := prio);
        ring := ring.(ringMac := sa);
      }
    }

    method LetGo()
      requires Wired()
      modifies this`ring, this`view, ports.a, ports.b
      ensures Wired() && Now() == old(Now()).LetGo(cfg)
    {
      if ring.mrm == ChkRc {
        SetSecondary(Forwarding);
      }
      ring := ring.(topoRunning := false, topo := Idle);
      ring := ring.(linkCurrMax := cfg.linkMax, monCurr := 0);
    }

    method RecvNack(prio: u16, sa: Mac, otherSa: Mac) returns (o: seq<Output>)
      requires Wired()
      modifies this`ring, this`view, ports.a, ports.b
      ensures Wired() && Now() == old(Now()).RecvNack(cfg, prio, sa, otherSa)
      ensures o == old(Snap()).RecvNackOut(prio, sa, otherSa)
    {
      ghost var n := Snap();
      if ring.role == MRC {
        return [];
      }
      if MacEqual(sa, cfg.mac) {
        return [];
      }
      if !MacEqual(otherSa, cfg.mac) {
        return [];
      }
      HearFrom(prio, sa);
      LetGo();
      o := SendRing(Propagate(cfg.prio, cfg.mac, ring.ringPrio, ring.ringMac));
      assert o == n.RecvNackOut(prio, sa, otherSa);
      Demote();
      return;
    }

    method RecvPropagate(prio: u16, sa: Mac, otherPrio: u16, otherSa: Mac)
      modifies this`ring
      ensures Now() == old(Now()).RecvPropagate(cfg, prio, sa, otherPrio, otherSa)
    {
      if ring.role == MRM {
        return;
      }
      if !MacEqual(sa, cfg.mac) {
        return;
      }
      if otherPrio != prio {
        return;
      }
      ring := ring.(ringPrio := otherPrio);
      ring := ring.(ringMac := otherSa);
      ring := ring.(monCurr := 0);
      return;
    }

    // ---- Received interconnect frames

    method RecvInTest(now: nat, id: u16) returns (o: seq<Output>)
      requires Wired() && InWired() && iPort != null
      modifies this`inter, this`inView, iPort
      ensures InWired() && InNow() == old(InNow()).RecvInTest(cfg, now, id)
      ensures o == old(Snap()).RecvInTestOut(id)
    {
      ghost var n := Snap();
      if cfg.inId != id {
        return [];
      }
      match inter.mim
      case MimAcStat1 =>
        SetInState(Blocked);
        inter := inter.(testCurrMax := cfg.inTestMax - 1);
        inter := inter.(testCurr := 0);
        o := InTestReq(now);
        assert o == n.InTestFrames();
        inter := inter.(mim := ChkIc);
        return;
      case ChkIo =>
        SetInState(Blocked);
        inter := inter.(testCurrMax := cfg.inTestMax - 1);
        inter := inter.(testCurr := 0);
        var topos := InTopoReq(now);
        assert topos == n.InTopoFrames(cfg.inTopoMax);
        var tests := InTestReq(now);
        assert tests == n.InTestFrames();
        inter := inter.(mim := ChkIc);
        return topos + tests;
      case ChkIc =>
        inter := inter.(testCurrMax := cfg.inTestMax - 1);
        inter := inter.(testCurr := 0);
        return [];
    }

    method MicRecvInTopo(id: u16)
      requires Wired() && InWired() && inter.role == MIC && iPort != null
      modifies this`inter, this`inView, iPort
      ensures InWired() && InNow() == old(InNow()).RecvInTopo(cfg, id)
    {
      match inter.mic
      case MicAcStat1 =>
        if id == cfg.inId {
          inter := inter.(linkDown := Idle);
        }
        return;
      case MicPt =>
        inter := inter.(linkCurrMax := cfg.inLinkMax);
        inter := inter.(linkUp := Idle);
        SetInState(Forwarding);
        inter := inter.(mic := IpIdle);
        return;
      case IpIdle =>
        return;
    }

    method AnnounceInTopo(now: nat, ms: u16) returns (o: seq<Output>)
      requires Wired()
      modifies this`ring
      ensures var starts := old(ring).role == MRM && !old(ring).topoRunning && ms != 0;
              ring == old(ring).(topoRunning := old(ring).topoRunning || starts,
                                 topo := if starts then Timer.Again(now, cfg.topoInterval) else old(ring).topo)
      ensures o == if old(ring).role == MRM && !old(ring).topoRunning then old(Snap()).TopoBurst(ms * 1000) else []
    {
      if ring.role == MRM && !ring.topoRunning {
        o := RingTopoReq(now, ms * 1000);
        return;
      }
      return [];
    }

    method RecvInTopo(now: nat, sa: Mac, id: u16, ms: u16) returns (o: seq<Output>)
      requires Wired() && InWired() && (inter.role != InDisabled ==> iPort != null)
      modifies this`ring, this`inter, this`inView, iPort
      ensures Wired() && Now() == old(Now()).RecvInTopo(cfg, now, old(inter).role, sa, ms)
      ensures InWired() && InNow() == old(InNow()).RecvInTopo(cfg, id)
      ensures o == old(Snap()).RecvInTopoOut(sa, ms)
    {
      o := AnnounceInTopo(now, ms);
      if inter.role == MIM {
        if MacEqual(sa, cfg.mac) {
          return;
        }
        var flush := ClearFdbStart(now, ms * 1000);
        return o + flush;
      }
      if inter.role == MIC {
        MicRecvInTopo(id);
        return;
      }
      return;
    }

    method RecvInLink(now: nat, up: bool, id: u16) returns (o: seq<Output>)
      requires Wired() && InWired() && iPort != null
      modifies this`inter, this`inView, iPort
      ensures InWired() && InNow() == old(InNow()).RecvInLink(cfg, now, up, id)
      ensures o == old(Snap()).RecvInLinkOut(up, id)
    {
      ghost var n := Snap();
      match inter.mim
      case MimAcStat1 =>
        return [];
      case ChkIo =>
        if id == cfg.inId && up {
          o := InTestReq(now);
          return;
        }
        return [];
      case ChkIc =>
        if id == cfg.inId && up {
          inter := inter.(testCurrMax := cfg.inTestMax);
          o := InTopoReq(now);
          assert o == n.InTopoFrames(cfg.inTopoMax);
          return;
        }
        if id == cfg.inId && !up {
          SetInState(Forwarding);
          o := InTopoReq(now);
          assert o == n.InTopoFrames(cfg.inTopoMax);
          inter := inter.(mim := ChkIo);
          return;
        }
        return [];
    }

    // ---- Forwarding

    method MicLets(onRing: bool, pdu: Pdu, p: bool, s: bool, i: bool) returns (plan: Plan)
      ensures plan == if pdu.InTest? || (pdu.InLink? && onRing) then Plan(p, s, i)
                      else if pdu.InLinkStatus? && onRing then Plan(false, false, i)
                      else if pdu.InTopo? then Plan(p, s, false)
                      else NOWHERE
    {
      if pdu.InTest? {
        return Plan(p, s, i);
      }
      if pdu.InLink? && onRing {
        return Plan(p, s, i);
      }
      if pdu.InLinkStatus? && onRing {
        return Plan(false, false, i);
      }
      if pdu.InTopo? {
        return Plan(p, s, false);
      }
      return NOWHERE;
    }

    /** The choice for an interconnect frame, once the incoming port has had its say. */
    method ChooseForInFrame(at: Port, pdu: Pdu, p: bool, s: bool, i: bool) returns (plan: Plan)
      requires Wired() && InWired() && (Mine(at) || at == iPort) && pdu.IsInFrame()
      requires Plan(p, s, i) == Snap().OpenPlan(at.Ref())
      ensures plan == Snap().InPlan(at.Ref(), pdu)
    {
      var onRing := at.role != Interconnect;
      var p, s, i := p, s, i;
      match ring.role {
        case MRM =>
          if (ports.pPort.state != Forwarding || ports.sPort.state != Forwarding) && onRing {
            p := false;
            s := false;
          }
        case MRC =>
          if inter.role != InDisabled && cfg.inId == pdu.ForwardingId() && onRing {
            p := false;
            s := false;
          }
      }
      match inter.role {
        case MIM =>
          if pdu.InTest? && MacEqual(pdu.sa, cfg.mac) {
            return NOWHERE;
          }
          if at == iPort {
            return NOWHERE;
          }
          i := false;
        case MIC =>
          plan := MicLets(onRing, pdu, p, s, i);
          return;
        case InDisabled =>
      }
      return Plan(p, s, i);
    }

    /** `mrp_check_and_forward` up to its label `forward`. */
    method ChooseForwarding(at: Port, pdu: Pdu) returns (plan: Plan)
      requires Wired() && InWired() && (Mine(at) || at == iPort)
      ensures plan == Snap().ForwardPlan(at.Ref(), pdu)
    {
      var p, s, i := false, false, false;
      if at == ports.pPort {
        s := true;
        i := iPort != null;
      } else if at == ports.sPort {
        p := true;
        i := iPort != null;
      } else {
        p := true;
        s := true;
      }
      if pdu.IsRingFrame() {
        if at == iPort {
          return NOWHERE;
        }
        i := false;
        match ring.role
        case MRM =>
          return NOWHERE;
        case MRC =>
          if pdu.IsOption() && !cfg.mra {
            return NOWHERE;
          }
          return Plan(p, s, i);
      }
      if pdu.IsInFrame() {
        plan := ChooseForInFrame(at, pdu, p, s, i);
        return;
      }
      return Plan(p, s, i);
    }

    method RelayIf(yes: bool, p: Port, pdu: Pdu) returns (o: seq<Output>)
      requires Wired() && InWired() && (Mine(p) || p == iPort)
      ensures o == Snap().Relay(yes, p.Ref(), pdu)
    {
      if yes {
        return [p.Relay(pdu)];
      }
      return [];
    }

    method CheckAndForward(at: Port, pdu: Pdu) returns (o: seq<Output>)
      requires Wired() && InWired() && (Mine(at) || at == iPort)
      ensures o == Snap().ForwardOut(at.Ref(), pdu)
    {
      var plan := ChooseForwarding(at, pdu);
      var toP := RelayIf(plan.toP, ports.pPort, pdu);
      var toS := RelayIf(plan.toS, ports.sPort, pdu);
      var toI := [];
      if plan.toI {
        toI := RelayIf(true, iPort, pdu);
      }
      assert ports.pPort.Ref() == Snap().PRef() && ports.sPort.Ref() == Snap().SRef();
      return toP + toS + toI;
    }

    // ---- Link changes

    method MrmStart(now: nat) returns (o: seq<Output>)
      requires Wired()
      modifies this`ring, this`view, ports.a, ports.b
      ensures Wired() && Now() == old(Now()).MrmStart(cfg, now)
      ensures o == old(Snap()).TestFrames()
    {
      ghost var n := Snap();
      SetPrimary(Forwarding);
      o := RingTestReq(now, cfg.testInterval);
      assert o == n.TestFrames();
      SetMrmState(PrmUp);
      return;
    }

    /** The primary port of a manager in CHK_RO went down. */
    method FailoverOpen(now: nat, p: Port) returns (o: seq<Output>)
      requires Wired() && p == ports.pPort && ring.mrm == ChkRo
      modifies this`ring, this`view, ports, ports.a, ports.b
      ensures Wired() && Now() == old(Now()).Swap().MrmFailover(cfg, now)
      ensures o == old(Snap()).FailoverOut()
    {
      StepDown(p);
      ghost var n := Snap();
      SetSecondary(Blocked);
      o := TestThenTopo(now, cfg.testInterval, cfg.topoInterval);
      assert o == n.TestFrames() + n.TopoBurst(cfg.topoInterval);
      SetMrmState(PrmUp);
      return;
    }

    /** The other port takes over and is the only one that forwards. */
    method HandOver(p: Port)
      requires Wired() && p == ports.pPort
      modifies this`view, ports, ports.a, ports.b
      ensures Wired()
      ensures view == PortView(old(view).primary.Other(), old(view).s.(state := Forwarding),
                               old(view).p.(state := Blocked))
    {
      StepDown(p);
      SetSecondary(Blocked);
      SetPrimary(Forwarding);
    }

    /** The primary port of a manager in CHK_RC went down. */
    method FailoverClosed(now: nat, p: Port) returns (o: seq<Output>)
      requires Wired() && p == ports.pPort && ring.mrm == ChkRc
      modifies this`ring, this`view, ports, ports.a, ports.b
      ensures Wired() && Now() == old(Now()).Swap().MrmFailover(cfg, now)
      ensures o == old(Snap()).FailoverOut()
    {
      ghost var n := Snap().(ring := Now().Swap());
      HandOver(p);
      o := TestThenTopo(now, cfg.testInterval, cfg.topoInterval);
      assert o == n.TestFrames() + n.TopoBurst(cfg.topoInterval);
      LeaveClosed(PrmUp);
      return;
    }

    method PrmUpPortLink(now: nat, p: Port, up: bool) returns (o: seq<Output>)
      requires Wired() && Mine(p) && ring.mrm == PrmUp
      modifies this`ring, this`view, ports, ports.a, ports.b
      ensures Wired() && Now() == old(Now()).MrmPortLink(cfg, now, Name(p), up)
      ensures o == old(Snap()).MrmPortLinkOut(Name(p), up)
    {
      ghost var n := Snap();
      if !up && p == ports.pPort {
        ring := ring.(test := Idle);
        SetPrimary(Blocked);
        SetMrmState(MrmAcStat1);
        return [];
      }
      if up && p != ports.pPort {
        ResetTestCounters();
        ring := ring.(noTc := true);
        o := RingTestReq(now, cfg.testInterval);
        assert o == n.TestFrames();
        SetMrmState(ChkRc);
        return;
      }
      return [];
    }

    method MrmFirstLink(now: nat, p: Port) returns (o: seq<Output>)
      requires Wired() && Mine(p) && ring.mrm == MrmAcStat1
      modifies this`ring, this`view, ports, ports.a, ports.b
      ensures Wired() && Now() == old(Now()).MrmPortLink(cfg, now, Name(p), true)
      ensures o == old(Snap()).MrmPortLinkOut(Name(p), true)
    {
      if p == ports.pPort {
        o := MrmStart(now);
        return;
      }
      BecomePrimary(p);
      o := MrmStart(now);
      return;
    }

    method MrmLostLink(now: nat, p: Port) returns (o: seq<Output>)
      requires Wired() && Mine(p) && (ring.mrm == ChkRo || ring.mrm == ChkRc)
      modifies this`ring, this`view, ports, ports.a, ports.b
      ensures Wired() && Now() == old(Now()).MrmPortLink(cfg, now, Name(p), false)
      ensures o == old(Snap()).MrmPortLinkOut(Name(p), false)
    {
      if p == ports.pPort && ring.mrm == ChkRo {
        o := FailoverOpen(now, p);
        return;
      }
      if p == ports.pPort {
        o := FailoverClosed(now, p);
        return;
      }
      if ring.mrm == ChkRo {
        SetSecondary(Blocked);
        SetMrmState(PrmUp);
        return [];
      }
      LeaveClosed(PrmUp);
      return [];
    }

    method MrmPortLink(now: nat, p: Port, up: bool) returns (o: seq<Output>)
      requires Wired() && Mine(p)
      modifies this`ring, this`view, ports, ports.a, ports.b
      ensures Wired() && Now() == old(Now()).MrmPortLink(cfg, now, Name(p), up)
      ensures o == old(Snap()).MrmPortLinkOut(Name(p), up)
    {
      match ring.mrm
      case MrmAcStat1 =>
        if !up {
          return [];
        }
        o := MrmFirstLink(now, p);
        return;
      case PrmUp =>
        o := PrmUpPortLink(now, p, up);
        return;
      case _ =>
        if up {
          return [];
        }
        o := MrmLostLink(now, p);
        return;
    }

    /** The second ring port of a client came up. */
    method AnnounceUp(now: nat) returns (o: seq<Output>)
      requires Wired() && (ring.mrc == DeIdle || ring.mrc == DataExchange)
      modifies this`ring, this`view, ports.a, ports.b
      ensures Wired() && Now() == old(Now()).AnnounceUp(cfg, now)
      ensures o == [old(Snap()).LinkFrame(true, cfg.linkMax)]
    {
      ghost var n := Snap();
      ring := ring.(linkCurrMax := cfg.linkMax);
      if ring.mrc == DataExchange {
        ring := ring.(linkDown := Idle);
      }
      ring := ring.(linkUp := Timer.Again(now, cfg.linkInterval));
      o := RingLinkReq(true, ring.linkCurrMax);
      assert o[0] == n.LinkFrame(true, cfg.linkMax);
      ring := ring.(mrc := PassThrough);
      return;
    }

    /** One of the two ring links of a client is gone; the lost port is already `s_port`. */
    method AnnounceDown(now: nat) returns (o: seq<Output>)
      requires Wired() && (ring.mrc == PassThrough || ring.mrc == PtIdle)
      modifies this`ring, this`view, ports.a, ports.b
      ensures Wired() && Now() == old(Now()).AnnounceDown(cfg, now)
      ensures o == [old(Snap()).LinkFrame(false, cfg.linkMax)]
    {
      ghost var n := Snap();
      ring := ring.(linkCurrMax := cfg.linkMax);
      if ring.mrc == PassThrough {
        ring := ring.(linkUp := Idle);
      }
      SetSecondary(Blocked);
      ring := ring.(linkDown := Timer.Again(now, cfg.linkInterval));
      o := RingLinkReq(false, ring.linkCurrMax);
      assert o[0] == n.LinkFrame(false, cfg.linkMax);
      ring := ring.(mrc := DataExchange);
      return;
    }

    method MrcFirstLink(now: nat, p: Port)
      requires Wired() && Mine(p) && ring.mrc == MrcAcStat1
      modifies this`ring, this`view, ports, ports.a, ports.b
      ensures Wired() && Now() == old(Now()).MrcPortLink(cfg, now, Name(p), true)
    {
      if p != ports.pPort {
        BecomePrimary(p);
      }
      SetPrimary(Forwarding);
      ring := ring.(mrc := DeIdle);
    }

    method MrcLastLink(now: nat, p: Port)
      requires Wired() && p == ports.pPort && (ring.mrc == DeIdle || ring.mrc == DataExchange)
      modifies this`ring, this`view, ports.a, ports.b
      ensures Wired() && Now() == old(Now()).MrcPortLink(cfg, now, Name(p), false)
    {
      if ring.mrc == DataExchange {
        ring := ring.(linkCurrMax := cfg.linkMax);
        ring := ring.(linkDown := Idle);
      }
      SetPrimary(Blocked);
      ring := ring.(mrc := MrcAcStat1);
    }

    /** A ring port of a client that had only one, or none, changed. */
    method MrcEndPortLink(now: nat, p: Port, up: bool) returns (o: seq<Output>)
      requires Wired() && Mine(p) && (ring.mrc == MrcAcStat1 || ring.mrc == DeIdle || ring.mrc == DataExchange)
      modifies this`ring, this`view, ports, ports.a, ports.b
      ensures Wired() && Now() == old(Now()).MrcPortLink(cfg, now, Name(p), up)
      ensures o == old(Snap()).MrcPortLinkOut(Name(p), up)
    {
      if ring.mrc == MrcAcStat1 {
        if up {
          MrcFirstLink(now, p);
        }
        return [];
      }
      if up && p != ports.pPort {
        o := AnnounceUp(now);
        return;
      }
      if !up && p == ports.pPort {
        MrcLastLink(now, p);
      }
      return [];
    }

    /** A ring port of a client that had both changed. */
    method MrcThroughPortLink(now: nat, p: Port, up: bool) returns (o: seq<Output>)
      requires Wired() && Mine(p) && (ring.mrc == PassThrough || ring.mrc == PtIdle)
      modifies this`ring, this`view, ports, ports.a, ports.b
      ensures Wired() && Now() == old(Now()).MrcPortLink(cfg, now, Name(p), up)
      ensures o == old(Snap()).MrcPortLinkOut(Name(p), up)
    {
      ghost var n := Snap();
      if up {
        return [];
      }
      if p == ports.pPort {
        StepDown(p);
        if ring.mrc == PassThrough {
          SetPrimary(Forwarding);
        }
        o := AnnounceDown(now);
        assert o[0] == n.(ring := n.ring.Swap()).LinkFrame(false, cfg.linkMax);
        return;
      }
      o := AnnounceDown(now);
      return;
    }

    method MrcPortLink(now: nat, p: Port, up: bool) returns (o: seq<Output>)
      requires Wired() && Mine(p)
      modifies this`ring, this`view, ports, ports.a, ports.b
      ensures Wired() && Now() == old(Now()).MrcPortLink(cfg, now, Name(p), up)
      ensures o == old(Snap()).MrcPortLinkOut(Name(p), up)
    {
      if ring.mrc == PassThrough || ring.mrc == PtIdle {
        o := MrcThroughPortLink(now, p, up);
        return;
      }
      o := MrcEndPortLink(now, p, up);
      return;
    }

    method RingPortLink(now: nat, p: Port, up: bool) returns (o: seq<Output>)
      requires Wired() && Mine(p)
      modifies this`ring, this`view, ports, ports.a, ports.b
      ensures Wired() && Now() == old(Now()).LinkChange(cfg, now, Name(p), up)
      ensures o == old(Snap()).RingLinkOut(Name(p), up)
    {
      p.up := up;
      view := ports.View();
      assert Now() == old(Now()).SetOper(Name(p), up);
      if ring.role == MRM {
        o := MrmPortLink(now, p, up);
        return;
      }
      o := MrcPortLink(now, p, up);
      return;
    }

    method MimRcPortLink(now: nat, up: bool) returns (o: seq<Output>)
      requires Wired() && InWired() && iPort != null && cfg.inMode == RC
      modifies this`inter, this`inView, iPort
      ensures InWired() && InNow() == old(InNow()).MimPortLink(cfg, now, up)
      ensures o == old(Snap()).MimPortLinkOut(up)
    {
      ghost var n := Snap();
      if up && inter.mim == MimAcStat1 {
        SetInState(Blocked);
        inter := inter.(testCurrMax := cfg.inTestMax - 1);
        inter := inter.(testCurr := 0);
        o := InTestReq(now);
        assert o == n.InTestFrames();
        inter := inter.(mim := ChkIc);
        return;
      }
      if !up && inter.mim != MimAcStat1 {
        SetInState(Blocked);
        var topos := InTopoReq(now);
        assert topos == n.InTopoFrames(cfg.inTopoMax);
        var tests := InTestReq(now);
        assert tests == n.InTestFrames();
        inter := inter.(mim := MimAcStat1);
        return topos + tests;
      }
      return [];
    }

    method MimLcPortLink(now: nat, up: bool) returns (o: seq<Output>)
      requires Wired() && InWired() && iPort != null && cfg.inMode == LC
      modifies this`inter, this`inView, iPort
      ensures InWired() && InNow() == old(InNow()).MimPortLink(cfg, now, up)
      ensures o == old(Snap()).MimPortLinkOut(up)
    {
      ghost var n := Snap();
      if up && inter.mim == MimAcStat1 {
        inter := inter.(statusCurrMax := cfg.inStatusMax);
        SetInState(Blocked);
        o := InLinkStatusReq(now, cfg.inStatusInterval);
        assert o == n.StatusFrames();
        inter := inter.(mim := ChkIc);
        return;
      }
      if !up && inter.mim == ChkIo {
        SetInState(Blocked);
        inter := inter.(status := Idle);
        inter := inter.(mim := MimAcStat1);
        return [];
      }
      if !up && inter.mim == ChkIc {
        SetInState(Blocked);
        inter := inter.(mim := MimAcStat1);
        return [];
      }
      return [];
    }

    method MicPortLink(now: nat, up: bool) returns (o: seq<Output>)
      requires Wired() && InWired() && iPort != null
      modifies this`inter, this`inView, iPort
      ensures InWired() && InNow() == old(InNow()).MicPortLink(cfg, now, up)
      ensures o == old(Snap()).MicPortLinkOut(up)
    {
      ghost var n := Snap();
      if up && inter.mic == MicAcStat1 {
        inter := inter.(linkCurrMax := cfg.inLinkMax);
        inter := inter.(linkDown := Idle);
        inter := inter.(linkUp := Timer.Again(now, cfg.inLinkInterval));
        o := InLinkReq(up, cfg.inLinkMax);
        assert o == n.InLinkFrames(up, cfg.inLinkMax);
        inter := inter.(mic := MicPt);
        return;
      }
      if !up && inter.mic != MicAcStat1 {
        inter := inter.(linkCurrMax := cfg.inLinkMax);
        if inter.mic == MicPt || cfg.inMode == LC {
          inter := inter.(linkUp := Idle);
        }
        SetInState(Blocked);
        inter := inter.(linkDown := Timer.Again(now, cfg.inLinkInterval));
        o := InLinkReq(up, cfg.inLinkMax);
        assert o == n.InLinkFrames(up, cfg.inLinkMax);
        inter := inter.(mic := MicAcStat1);
        return;
      }
      return [];
    }

    method InPortLink(now: nat, up: bool) returns (o: seq<Output>)
      requires Wired() && InWired() && iPort != null
      modifies this`inter, this`inView, iPort
      ensures InWired() && InNow() == old(InNow()).PortLink(cfg, now, up)
      ensures o == old(Snap()).InPortLinkOut(up)
    {
      iPort.up := up;
      inView := iPort.Rec();
      match inter.role
      case InDisabled =>
        return [];
      case MIM =>
        if cfg.inMode == RC {
          o := MimRcPortLink(now, up);
          return;
        }
        o := MimLcPortLink(now, up);
        return;
      case MIC =>
        o := MicPortLink(now, up);
        return;
    }

    // ---- Timer expiries: libev has already advanced the timer when it calls back

    /** The announcement of an opened ring, then test frames. */
    method TopoThenTest(now: nat) returns (o: seq<Output>)
      requires Wired()
      modifies this`ring
      ensures ring == old(ring).(topoRunning := old(ring).topoRunning || !old(ring).noTc,
                                 topo := if old(ring).noTc then old(ring).topo else Timer.Again(now, cfg.topoInterval),
                                 test := Timer.Again(now, cfg.testInterval))
      ensures o == (if old(ring).noTc then [] else old(Snap()).TopoBurst(cfg.topoInterval)) + old(Snap()).TestFrames()
    {
      ghost var n := Snap();
      o := [];
      if !ring.noTc {
        o := RingTopoReq(now, cfg.topoInterval);
      }
      var tests := RingTestReq(now, cfg.testInterval);
      assert tests == n.TestFrames();
      return o + tests;
    }

    method OpenRing(now: nat) returns (o: seq<Output>)
      requires Wired() && ring.role == MRM && ring.mrm == ChkRc && ring.testCurr >= ring.testCurrMax
      modifies this`ring, this`view, ports.a, ports.b
      ensures Wired() && Now() == old(Now()).MrmTestExpired(cfg, now)
      ensures o == old(Snap()).TestExpiredOut()
    {
      ghost var n := Snap();
      SetSecondary(Forwarding);
      GiveUp();
      o := TopoThenTest(now);
      assert o == n.TestExpiredOut();
      LeaveClosed(ChkRo);
      return;
    }

    method MrmRingTestExpired(now: nat) returns (o: seq<Output>)
      requires Wired() && ring.role == MRM
      modifies this`ring, this`view, ports.a, ports.b
      ensures Wired() && Now() == old(Now()).MrmTestExpired(cfg, now)
      ensures o == old(Snap()).TestExpiredOut()
    {
      ghost var n := Snap();
      if ring.mrm == MrmAcStat1 {
        return [];
      }
      if ring.mrm == ChkRc && ring.testCurr >= ring.testCurrMax {
        o := OpenRing(now);
        return;
      }
      if ring.mrm == ChkRc {
        ring := ring.(testCurr := ring.testCurr + 1);
      }
      ring := ring.(addTest := false);
      o := RingTestReq(now, cfg.testInterval);
      assert o == n.TestFrames();
      return;
    }

    method Promote(state: MrmState)
      modifies this`ring
      ensures ring == old(ring).(mrm := state, noTc := false, role := MRM)
    {
      SetMrmState(state);
      ring := ring.(role := MRM);
    }

    method MrcRingTestExpired(now: nat)
      requires ring.role == MRC
      modifies this`ring
      ensures ring == old(ring).MrcTestExpired(cfg, now)
    {
      if ring.monCurr <= cfg.monMax {
        ring := ring.(monCurr := ring.monCurr + 1);
        ring := ring.(test := Timer.Again(now, cfg.testShort));
        return;
      }
      ring := ring.(test := Timer.Again(now, cfg.testShort));
      ring := ring.(addTest := false, noTc := false, testCurr := 0);
      match ring.mrc
      case MrcAcStat1 =>
        return;
      case DeIdle =>
        Promote(PrmUp);
        return;
      case PassThrough =>
        Promote(ChkRc);
        return;
      case DataExchange =>
        Promote(PrmUp);
        return;
      case PtIdle =>
        Promote(ChkRo);
        return;
    }

    method RingTestExpired(now: nat) returns (o: seq<Output>)
      requires Wired()
      modifies this`ring, this`view, ports.a, ports.b
      ensures Wired() && Now() == old(Now()).TestExpired(cfg, now)
      ensures o == old(Snap()).TestExpiredOut()
    {
      if cfg.mra && ring.role == MRC {
        MonitorIgnoresPorts(view, ring, cfg, now);
        MrcRingTestExpired(now);
        return [];
      }
      if ring.role == MRM {
        o := MrmRingTestExpired(now);
        return;
      }
      return [];
    }

    method RingTopoExpired() returns (o: seq<Output>)
      requires Wired()
      modifies this`ring
      ensures Now() == old(Now()).TopoExpired(cfg)
      ensures o == old(Snap()).TopoExpiredOut()
    {
      ghost var n := Snap();
      if ring.topoCurrMax > 0 {
        o := RingTopoSend(U32(ring.topoCurrMax * cfg.topoInterval));
        ring := ring.(topoCurrMax := ring.topoCurrMax - 1);
        return;
      }
      ring := ring.(topoCurrMax := cfg.topoMax - 1);
      o := RingTopoSend(0);
      o := [Flushed] + o;
      assert o == [Flushed] + n.TopoFrames(0);
      ring := ring.(topoRunning := false);
      ring := ring.(topo := Idle);
      return;
    }

    method RingLinkUpExpired(now: nat) returns (o: seq<Output>)
      requires Wired()
      modifies this`ring, this`view, ports.a, ports.b
      ensures Wired() && Now() == old(Now()).LinkUpExpired(cfg, now)
      ensures var n := old(Snap());
              o == if n.ring.linkCurrMax > 0 then [n.LinkFrame(true, n.ring.linkCurrMax - 1)] else []
    {
      ghost var n := Snap();
      if ring.linkCurrMax > 0 {
        ring := ring.(linkCurrMax := ring.linkCurrMax - 1);
        ring := ring.(linkUp := Timer.Again(now, cfg.linkInterval));
        o := RingLinkReq(true, ring.linkCurrMax);
        assert o[0] == n.LinkFrame(true, n.ring.linkCurrMax - 1);
        return;
      }
      ring := ring.(linkCurrMax := cfg.linkMax);
      SetSecondary(Forwarding);
      ring := ring.(mrc := PtIdle);
      ring := ring.(linkUp := Idle);
      return [];
    }

    method RingLinkDownExpired(now: nat) returns (o: seq<Output>)
      requires Wired()
      modifies this`ring, this`view, ports.a, ports.b
      ensures Wired() && Now() == old(Now()).LinkDownExpired(cfg, now)
      ensures var n := old(Snap());
              o == if n.ring.linkCurrMax > 0 then [n.LinkFrame(false, n.ring.linkCurrMax - 1)] else []
    {
      ghost var n := Snap();
      if ring.linkCurrMax > 0 {
        ring := ring.(linkCurrMax := ring.linkCurrMax - 1);
        ring := ring.(linkDown := Timer.Again(now, cfg.linkInterval));
        o := RingLinkReq(false, ring.linkCurrMax);
        assert o[0] == n.LinkFrame(false, n.ring.linkCurrMax - 1);
        return;
      }
      ring := ring.(linkCurrMax := cfg.linkMax);
      ring := ring.(mrc := DeIdle);
      ring := ring.(linkDown := Idle);
      return [];
    }

    method InTestExpired(now: nat) returns (o: seq<Output>)
      requires Wired() && InWired() && iPort != null
      modifies this`inter, this`inView, iPort
      ensures InWired() && InNow() == old(InNow()).TestExpired(cfg, now)
      ensures o == old(Snap()).InTestExpiredOut()
    {
      ghost var n := Snap();
      match inter.mim
      case MimAcStat1 =>
        return [];
      case ChkIo =>
        o := InTestReq(now);
        return;
      case ChkIc =>
        if inter.testCurr >= inter.testCurrMax {
          SetInState(Forwarding);
          inter := inter.(testCurrMax := cfg.inTestMax - 1);
          inter := inter.(testCurr := 0);
          var topos := InTopoReq(now);
          assert topos == n.InTopoFrames(cfg.inTopoMax);
          var tests := InTestReq(now);
          assert tests == n.InTestFrames();
          inter := inter.(transitions := Inc16(inter.transitions));
          inter := inter.(mim := ChkIo);
          return topos + tests;
        }
        inter := inter.(testCurr := inter.testCurr + 1);
        o := InTestReq(now);
        assert o == n.InTestFrames();
        return;
    }

    method InTopoExpired() returns (o: seq<Output>)
      requires Wired() && InWired() && iPort != null
      modifies this`inter, this`inView, iPort
      ensures InWired() && InNow() == old(InNow()).TopoExpired(cfg)
      ensures var n := old(Snap());
              o == if n.inter.topoCurrMax > 0 then n.InTopoFrames(n.inter.topoCurrMax)
                   else [Flushed] + n.InTopoFrames(0)
    {
      ghost var n := Snap();
      if inter.topoCurrMax > 0 {
        o := InTopoSend(inter.topoCurrMax);
        inter := inter.(topoCurrMax := inter.topoCurrMax - 1);
        return;
      }
      inter := inter.(topoCurrMax := cfg.inTopoMax - 1);
      o := InTopoSend(0);
      o := [Flushed] + o;
      assert o == [Flushed] + n.InTopoFrames(0);
      inter := inter.(topo := Idle);
      return;
    }

    method InLinkUpExpired(now: nat) returns (o: seq<Output>)
      requires Wired() && InWired() && iPort != null
      modifies this`inter, this`inView, iPort
      ensures InWired() && InNow() == old(InNow()).LinkUpExpired(cfg, now)
      ensures var n := old(Snap());
              o == if n.inter.linkCurrMax > 0 then n.InLinkFrames(true, n.inter.linkCurrMax - 1) else []
    {
      ghost var n := Snap();
      if inter.linkCurrMax > 0 {
        inter := inter.(linkCurrMax := inter.linkCurrMax - 1);
        inter := inter.(linkUp := Timer.Again(now, cfg.inLinkInterval));
        o := InLinkReq(true, inter.linkCurrMax);
        assert o == n.InLinkFrames(true, n.inter.linkCurrMax - 1);
        return;
      }
      inter := inter.(linkCurrMax := cfg.inLinkMax);
      SetInState(Forwarding);
      inter := inter.(mic := IpIdle);
      inter := inter.(linkUp := Idle);
      return [];
    }

    method InLinkDownExpired(now: nat) returns (o: seq<Output>)
      requires Wired() && InWired() && iPort != null
      modifies this`inter, this`inView, iPort
      ensures InWired() && InNow() == old(InNow()).LinkDownExpired(cfg, now)
      ensures var n := old(Snap());
              o == if n.inter.linkCurrMax > 0 then n.InLinkFrames(false, n.inter.linkCurrMax - 1) else []
    {
      ghost var n := Snap();
      if inter.linkCurrMax > 0 {
        inter := inter.(linkCurrMax := inter.linkCurrMax - 1);
        inter := inter.(linkDown := Timer.Again(now, cfg.inLinkInterval));
        o := InLinkReq(false, inter.linkCurrMax);
        assert o == n.InLinkFrames(false, n.inter.linkCurrMax - 1);
        return;
      }
      inter := inter.(linkCurrMax := cfg.inLinkMax);
      inter := inter.(linkDown := Idle);
      return [];
    }

    method InLinkStatusExpired(now: nat) returns (o: seq<Output>)
      requires Wired()
      modifies this`inter
      ensures InNow() == old(InNow()).StatusExpired(cfg, now)
      ensures o == if old(inter).statusCurrMax > 0 then old(Snap()).StatusFrames() else []
    {
      ghost var n := Snap();
      if inter.statusCurrMax > 0 {
        inter := inter.(statusCurrMax := inter.statusCurrMax - 1);
        o := InLinkStatusReq(now, U32(inter.statusCurrMax * cfg.inStatusInterval));
        assert o == n.StatusFrames();
        return;
      }
      inter := inter.(statusCurrMax := cfg.inStatusMax);
      inter := inter.(status := Idle);
      return [];
    }

    // ---- The events of the main loop

    predicate OfRing(t: TimerId) {
      t == ClearFdbT || t == RingTestT || t == RingTopoT || t == RingLinkUpT || t == RingLinkDownT
    }

    function TimerOf(t: TimerId): Timer
      reads this`ring, this`inter
    {
      Node(cfg, ring, inter).TimerOf(t)
    }

    method ExpireRing(now: nat, t: TimerId) returns (o: seq<Output>)
      requires Wired() && OfRing(t)
      modifies this`ring, this`view, ports.a, ports.b
      ensures Wired() && Now() == old(Now()).Expire(cfg, now, t)
      ensures o == old(Snap()).ExpireOut(t)
    {
      ghost var n := Snap();
      if TimerOf(t).Idle? {
        return [];
      }
      match t
      case ClearFdbT =>
        ring := ring.(clearFdb := Idle);
        return [Flushed];
      case RingTestT =>
        ring := ring.(test := ring.test.Fired(now));
        o := RingTestExpired(now);
        return;
      case RingTopoT =>
        ring := ring.(topo := ring.topo.Fired(now));
        o := RingTopoExpired();
        return;
      case RingLinkUpT =>
        ring := ring.(linkUp := ring.linkUp.Fired(now));
        o := RingLinkUpExpired(now);
        return;
      case RingLinkDownT =>
        ring := ring.(linkDown := ring.linkDown.Fired(now));
        o := RingLinkDownExpired(now);
        return;
    }

    /** The InTest and InTopo timers of an interconnection manager. */
    method ExpireTestOrTopo(now: nat, t: TimerId) returns (o: seq<Output>)
      requires Valid() && (t == InTestT || t == InTopoT)
      modifies this`inter, this`inView, iPort
      ensures InWired() && InNow() == old(InNow()).Expire(cfg, now, t)
      ensures o == old(Snap()).ExpireOut(t)
    {
      if TimerOf(t).Idle? {
        return [];
      }
      match t
      case InTestT =>
        inter := inter.(test := inter.test.Fired(now));
        o := InTestExpired(now);
        return;
      case InTopoT =>
        inter := inter.(topo := inter.topo.Fired(now));
        o := InTopoExpired();
        return;
    }

    /** The countdowns of an interconnection client. */
    method ExpireLink(now: nat, t: TimerId) returns (o: seq<Output>)
      requires Valid() && (t == InLinkUpT || t == InLinkDownT)
      modifies this`inter, this`inView, iPort
      ensures InWired() && InNow() == old(InNow()).Expire(cfg, now, t)
      ensures o == old(Snap()).ExpireOut(t)
    {
      if TimerOf(t).Idle? {
        return [];
      }
      match t
      case InLinkUpT =>
        inter := inter.(linkUp := inter.linkUp.Fired(now));
        o := InLinkUpExpired(now);
        return;
      case InLinkDownT =>
        inter := inter.(linkDown := inter.linkDown.Fired(now));
        o := InLinkDownExpired(now);
        return;
    }

    /** The timers of LC mode. */
    method ExpireLc(now: nat, t: TimerId) returns (o: seq<Output>)
      requires Valid() && (t == InLinkStatusT || t == CfmCcmT)
      modifies this`inter, this`inView, iPort
      ensures InWired() && InNow() == old(InNow()).Expire(cfg, now, t)
      ensures o == old(Snap()).ExpireOut(t)
    {
      if TimerOf(t).Idle? {
        return [];
      }
      match t
      case InLinkStatusT =>
        inter := inter.(status := inter.status.Fired(now));
        o := InLinkStatusExpired(now);
        return;
      case CfmCcmT =>
        inter := inter.(ccm := Timer.Again(now, cfg.ccmPeriod));
        return [];
    }

    method ExpireInter(now: nat, t: TimerId) returns (o: seq<Output>)
      requires Valid() && !OfRing(t)
      modifies this`inter, this`inView, iPort
      ensures InWired() && InNow() == old(InNow()).Expire(cfg, now, t)
      ensures o == old(Snap()).ExpireOut(t)
    {
      if t == InTestT || t == InTopoT {
        o := ExpireTestOrTopo(now, t);
        return;
      }
      if t == InLinkUpT || t == InLinkDownT {
        o := ExpireLink(now, t);
        return;
      }
      o := ExpireLc(now, t);
      return;
    }

    /** `mrp_should_drop`, type by type. */
    method ShouldDrop(at: Port, pdu: Pdu) returns (yes: bool)
      ensures yes == Drops(at.state, at.role != Interconnect, pdu)
    {
      if at.state == Disabled {
        return true;
      }
      if at.role != Interconnect && at.state == Blocked &&
         !pdu.Topo? && !pdu.Test? && !pdu.Link? && !pdu.InTopo? && !pdu.InLink? && !pdu.IsOption() {
        return true;
      }
      if at.role == Interconnect && at.state == Blocked && !pdu.InTest? && !pdu.InLink? && !pdu.InTopo? {
        return true;
      }
      return false;
    }

    /** `mrp_should_process`; the option case has no break and goes on with the next one. */
    method ShouldProcess(pdu: Pdu) returns (yes: bool)
      ensures yes == Now().Processes(cfg, InNow().role, pdu)
    {
      if pdu.Test? {
        return ring.role == MRM || (ring.role == MRC && cfg.mra);
      }
      if pdu.Link? {
        return ring.role == MRM;
      }
      if pdu.Topo? {
        return ring.role == MRC || (ring.role == MRM && cfg.mra);
      }
      if pdu.IsOption() && cfg.mra {
        return true;
      }
      if pdu.IsOption() || pdu.InTest? {
        return inter.role == MIM;
      }
      if pdu.InTopo? {
        return inter.role == MIC || inter.role == MIM || ring.role == MRM;
      }
      if pdu.InLink? {
        return inter.role == MIM;
      }
      return false;
    }

    /** `mrp_process` behind `mrp_should_process`. */
    method Process(now: nat, pdu: Pdu) returns (o: seq<Output>)
      requires Valid()
      modifies this`ring, this`inter, this`view, this`inView, ports, ports.a, ports.b, iPort
      ensures Wired() && Now() == old(Now()).Recv(cfg, now, old(inter).role, pdu)
      ensures InWired() && InNow() == old(InNow()).Recv(cfg, now, pdu)
      ensures o == old(Snap()).ProcessOut(pdu)
    {
      var yes := ShouldProcess(pdu);
      if !yes {
        return [];
      }
      match pdu
      case Test(prio, sa, _, _, _) =>
        o := RecvRingTest(now, prio, sa);
        return;
      case Topo(_, sa, ms) =>
        o := RecvRingTopo(now, sa, ms);
        return;
      case Link(up, _, _, _, _) =>
        o := RecvRingLink(now, up);
        return;
      case Nack(prio, sa, _, otherSa) =>
        o := RecvNack(prio, sa, otherSa);
        return;
      case Propagate(prio, sa, otherPrio, otherSa) =>
        RecvPropagate(prio, sa, otherPrio, otherSa);
        return [];
      case InTest(id, _, _, _, _) =>
        o := RecvInTest(now, id);
        return;
      case InTopo(sa, id, ms) =>
        o := RecvInTopo(now, sa, id, ms);
        return;
      case InLink(up, _, _, id, _) =>
        o := RecvInLink(now, up, id);
        return;
      case _ =>
        return [];
    }

    /** `mrp_recv`: a frame is dropped, or it is passed on and then processed. */
    method Recv(now: nat, at: Port, pdu: Pdu) returns (o: seq<Output>)
      requires Valid() && (Mine(at) || at == iPort)
      modifies this`ring, this`inter, this`view, this`inView, ports, ports.a, ports.b, iPort
      ensures Wired() && InWired() && Snap() == old(Snap()).Step(now, Receive(at.Ref(), pdu))
      ensures o == old(Snap()).ReceiveOut(at.Ref(), pdu)
    {
      ReceiveStep(Snap(), now, at.Ref(), pdu);
      assert Snap().ShouldDrop(at.Ref(), pdu) == Drops(at.state, at.role != Interconnect, pdu);
      var drop := ShouldDrop(at, pdu);
      if drop {
        return [];
      }
      var relayed := CheckAndForward(at, pdu);
      o := Process(now, pdu);
      return relayed + o;
    }

    /** The same for a frame of `cc` bytes in the receive buffer. The type and the forwarding id are read
        from that buffer. Relaying extends a short frame to the Ethernet minimum, and processing works on a
        copy, behind whose end is what `stale` holds. From 42 bytes on that makes no difference. */
    method RecvFrame(now: nat, at: Port, buf: seq<u8>, cc: nat, stale: seq<u8>) returns (o: seq<Output>)
      requires Valid() && (Mine(at) || at == iPort)
      requires 14 <= cc <= |buf| == |stale| == MrpFrames.PACKET
      requires cc >= 17 || !MrpFrames.IsLinkType(buf[16]) || stale[16] == buf[16]
      modifies this`ring, this`inter, this`view, this`inView, ports, ports.a, ports.b, iPort
      ensures Valid()
      ensures var n, f := old(Snap()), MrpFrames.ReadFrame(buf);
              var q := MrpFrames.ReadAs(buf[16], MrpFrames.Copied(buf, Extent(n, at.Ref(), f, cc), stale));
              if n.ShouldDrop(at.Ref(), f) then Snap() == n && o == []
              else && Snap() == Node(cfg, n.ring.Recv(cfg, now, n.inter.role, q), n.inter.Recv(cfg, now, q))
                   && o == n.ForwardOut(at.Ref(), f) + n.ProcessOut(q)
    {
      ghost var n := Snap();
      var f := MrpFrames.ReadFrame(buf);
      var drop := ShouldDrop(at, f);
      if drop {
        return [];
      }
      var relayed := CheckAndForward(at, f);
      var size := cc;
      if relayed != [] && size < MrpFrames.MIN_FRAME {
        size := size + (MrpFrames.MIN_FRAME - size);
      }
      assert size == Extent(n, at.Ref(), f, cc);
      var pdu := MrpFrames.ReadAs(buf[16], MrpFrames.Copied(buf, size, stale));
      InterInvariants.RecvKeeps(cfg, InNow(), now, pdu);
      o := Process(now, pdu);
      return relayed + o;
    }

    /** A frame of at least 42 bytes is a `Receive` event of the value model. */
    method RecvWholeFrame(now: nat, at: Port, buf: seq<u8>, cc: nat, stale: seq<u8>) returns (o: seq<Output>)
      requires Valid() && (Mine(at) || at == iPort)
      requires 42 <= cc <= |buf| == |stale| == MrpFrames.PACKET
      modifies this`ring, this`inter, this`view, this`inView, ports, ports.a, ports.b, iPort
      ensures Valid()
      ensures Snap() == old(Snap()).Step(now, Receive(at.Ref(), MrpFrames.ReadFrame(buf)))
      ensures o == old(Snap()).ReceiveOut(at.Ref(), MrpFrames.ReadFrame(buf))
    {
      ghost var n := Snap();
      ghost var f := MrpFrames.ReadFrame(buf);
      MrpFrames.FieldsWithin(buf, MrpFrames.Copied(buf, Extent(n, at.Ref(), f, cc), stale));
      ReceiveStep(n, now, at.Ref(), f);
      o := RecvFrame(now, at, buf, cc, stale);
    }

    method Expired(now: nat, t: TimerId) returns (o: seq<Output>)
      requires Valid()
      modifies this`ring, this`inter, this`view, this`inView, ports, ports.a, ports.b, iPort
      ensures Wired() && InWired() && Snap() == old(Snap()).Step(now, Expire(t))
      ensures o == old(Snap()).ExpireOut(t)
    {
      ExpireStep(Snap(), now, t);
      if OfRing(t) {
        o := ExpireRing(now, t);
        return;
      }
      o := ExpireInter(now, t);
      return;
    }

    /** `mrp_get_port`: the port that an event is about, if the instance has it. */
    method PortAt(at: PortRef) returns (p: Port?)
      requires Wired() && InWired()
      ensures p == null <==> at.OnInter? && iPort == null
      ensures p != null ==> p.Ref() == at && if at.OnInter? then p == iPort else Mine(p) && Name(p) == at.x
    {
      if at.OnInter? {
        return iPort;
      }
      if at == ports.pPort.Ref() {
        return ports.pPort;
      }
      assert at == ports.sPort.Ref() by {
        assert at.x == PortA || at.x == PortB;
      }
      return ports.sPort;
    }

    method Dispatch(now: nat, e: Event) returns (o: seq<Output>)
      requires Valid()
      modifies this`ring, this`inter, this`view, this`inView, ports, ports.a, ports.b, iPort
      ensures Wired() && InWired()
      ensures Snap() == old(Snap()).Step(now, e)
      ensures o == old(Snap()).Out(e)
    {
      match e
      case LinkChange(at, up) =>
        var p := PortAt(at);
        if p == null {
          return [];
        }
        if p == iPort && cfg.inMode == LC {
          return [];
        }
        if p == iPort {
          o := InPortLink(now, up);
          return;
        }
        o := RingPortLink(now, p, up);
        return;
      case CfmChange(defect) =>
        if iPort == null {
          return [];
        }
        o := InPortLink(now, !defect);
        return;
      case Receive(at, pdu) =>
        var p := PortAt(at);
        if p == null {
          return [];
        }
        o := Recv(now, p, pdu);
        return;
      case Expire(t) =>
        o := Expired(now, t);
        return;
    }

    /** Every event makes the instance take the step of the value model and send its frames, and leaves
        its references in order. */
    method Handle(now: nat, e: Event) returns (o: seq<Output>)
      requires Valid()
      modifies this`ring, this`inter, this`view, this`inView, ports, ports.a, ports.b, iPort
      ensures Valid()
      ensures Snap() == old(Snap()).Step(now, e)
      ensures o == old(Snap()).Out(e)
    {
      InterInvKept(cfg, InNow(), now, e, Snap().Passes(e));
      o := Dispatch(now, e);
    }

    // ---- Adding and destroying an instance

    /** `mrp_timer_stop`. */
    method TimerStop()
      modifies this`ring, this`inter
      ensures Now() == old(Now()).StopTimers()
      ensures InNow() == old(InNow()).StopTimers(cfg)
    {
      ring := ring.(clearFdb := Idle);
      ring := ring.(topoRunning := false, topo := Idle);
      ring := ring.(linkUp := Idle);
      ring := ring.(linkDown := Idle);
      ring := ring.(test := Idle);
      if inter.role != InDisabled {
        inter := inter.(topo := Idle);
        inter := inter.(linkUp := Idle);
        inter := inter.(linkDown := Idle);
        if cfg.inMode == RC {
          inter := inter.(test := Idle);
        } else {
          inter := inter.(status := Idle);
          inter := inter.(ccm := Idle);
        }
      }
    }

    /** `mrp_reset_ring_state`, which is all that `mrp_destroy` does to an instance before freeing it. */
    method ResetRingState()
      modifies this`ring, this`inter
      ensures Snap() == Destroyed(old(Snap()))
    {
      TimerStop();
      ring := ring.(mrm := MrmAcStat1);
      ring := ring.(mrc := MrcAcStat1);
    }

    /** The role setters up to their link events. */
    method SetRingRole(w: WantedRole)
      requires Wired() && inter.role == InDisabled
      modifies this`ring, this`inter, this`view, ports.a, ports.b
      ensures Wired() && Now() == RoleSet(cfg, old(Now()), w) && InNow() == old(InNow())
    {
      ResetRingState();
      if w != WantMrc {
        ring := ring.(addTest := false, noTc := false, testCurr := 0);
      }
      if w != WantMrm {
        ring := ring.(linkCurrMax := cfg.linkMax, monCurr := 0);
      }
      SetPrimary(Blocked);
      SetSecondary(Blocked);
      ring := ring.(role := if w == WantMrc then MRC else MRM);
    }

    method SetInRole(r: InRole)
      requires Wired() && InWired() && iPort != null && r != InDisabled
      modifies this`inter, this`inView, iPort
      ensures InWired() && InNow() == InRoleSet(old(InNow()), r)
    {
      inter := inter.(mim := MimAcStat1);
      inter := inter.(mic := MicAcStat1);
      inter := inter.(role := r);
      SetInState(Blocked);
    }

    /** `mrp_set_mrm_role`, `mrp_set_mrc_role` or `mrp_set_mra_role` in `mrp_add`. */
    method AddRingRole(w: WantedRole, up: Links, now: nat)
      requires Wired() && InWired() && Now() == CreatedRing(cfg) && InNow() == CreatedInter(cfg, iPort != null, now)
      modifies this`ring, this`inter, this`view, this`inView, ports, ports.a, ports.b, iPort
      ensures Valid() && inter.role == InDisabled
      ensures Snap() == WithRing(cfg, w, iPort != null, up, now)
    {
      SetRingRole(w);
      if up.a {
        RolesStay(Snap(), now, LinkChange(OnRing(PortA), true));
        var _ := Handle(now, LinkChange(OnRing(PortA), true));
      }
      if up.b {
        RolesStay(Snap(), now, LinkChange(OnRing(PortB), true));
        var _ := Handle(now, LinkChange(OnRing(PortB), true));
      }
    }

    method AddInRole(r: InRole, up: bool, now: nat)
      requires Valid() && inter.role == InDisabled && r != InDisabled && iPort != null
      modifies this`ring, this`inter, this`view, this`inView, ports, ports.a, ports.b, iPort
      ensures Valid() && Snap() == WithInRole(old(Snap()), r, up, now)
    {
      SetInRole(r);
      if up && cfg.inMode == RC {
        var _ := Handle(now, LinkChange(OnInter, true));
        return;
      }
      if up {
        var _ := Handle(now, CfmChange(false));
        return;
      }
      return;
    }

    /** The role setters of `mrp_add`. */
    method Add(w: WantedRole, r: InRole, up: Links, now: nat)
      requires Wired() && InWired() && Now() == CreatedRing(cfg) && InNow() == CreatedInter(cfg, iPort != null, now)
      requires r != InDisabled || cfg.inMode == LC ==> iPort != null
      modifies this`ring, this`inter, this`view, this`inView, ports, ports.a, ports.b, iPort
      ensures Valid() && Snap() == Added(cfg, w, r, iPort != null, up, now)
    {
      AddRingRole(w, up, now);
      if r != InDisabled {
        AddInRole(r, up.i, now);
      }
    }

    // ---- Runs

    /** The event loop. Whatever events come, after every one of them the references are the two
        original ring ports and distinct, and the instance has made a run of the value model. */
    method Run(es: seq<(nat, Event)>) returns (ghost s: seq<Node>, os: seq<seq<Output>>)
      requires Valid()
      modifies this`ring, this`inter, this`view, this`inView, ports, ports.a, ports.b, iPort
      ensures Valid() && ports.pPort != ports.sPort && {ports.pPort, ports.sPort} == {ports.a, ports.b}
      ensures IsRun(s, es) && s[0] == old(Snap()) && s[|es|] == Snap()
      ensures |os| == |es| && forall k :: 0 <= k < |es| ==> os[k] == s[k].Out(es[k].1)
    {
      s, os := [Snap()], [];
      for k := 0 to |es|
        invariant Valid() && Ran(s, os, es, k) && s[0] == old(Snap()) && s[k] == Snap()
      {
        var o := Handle(es[k].0, es[k].1);
        RanOn(s, os, es, k, Snap(), o);
        s, os := s + [Snap()], os + [o];
      }
    }

    /** A fixed-role manager, run on any events: its references are still the two original ring ports
        and distinct, and the ports they lead to are in the states that its own state asks for. */
    method RunManager(es: seq<(nat, Event)>)
      requires Valid() && FixedMrm(cfg, Now(), InNow())
      modifies this`ring, this`inter, this`view, this`inView, ports, ports.a, ports.b, iPort
      ensures Valid() && FixedMrm(cfg, Now(), InNow())
      ensures ports.pPort != ports.sPort && {ports.pPort, ports.sPort} == {ports.a, ports.b}
      ensures ports.pPort.state == if ring.mrm == MrmAcStat1 then Blocked else Forwarding
      ensures ports.sPort.state == if ring.mrm == ChkRo then Forwarding else Blocked
    {
      ghost var s;
      var os;
      s, os := Run(es);
      FixedMrmInductive();
      Induct(FixedMrm, s, es, |es|);
      ManagerPorts(this);
    }
  }

  /** The monitor of a demoted auto-manager neither looks at the ports nor changes them. */
  lemma MonitorIgnoresPorts(v: PortView, r: Ring, c: Config, now: nat)
    ensures v.In(r.MrcTestExpired(c, now)) == v.In(r).MrcTestExpired(c, now)
  {
  }

  lemma ExpireStep(n: Node, now: nat, t: TimerId)
    ensures n.Step(now, Expire(t)) == Node(n.cfg, n.ring.Expire(n.cfg, now, t), n.inter.Expire(n.cfg, now, t))
    ensures n.ring.Expire(n.cfg, now, t) == n.ring || n.inter.Expire(n.cfg, now, t) == n.inter
  {
  }

  lemma ReceiveStep(n: Node, t: nat, at: PortRef, pdu: Pdu)
    ensures n.Step(t, Receive(at, pdu)) ==
            if n.ShouldDrop(at, pdu) then n
            else Node(n.cfg, n.ring.Recv(n.cfg, t, n.inter.role, pdu), n.inter.Recv(n.cfg, t, pdu))
  {
  }

  /** How much of a frame of `cc` bytes is copied for processing: relaying has extended a short one. */
  function Extent(n: Node, at: PortRef, f: Pdu, cc: nat): nat {
    if n.ForwardOut(at, f) != [] && cc < MrpFrames.MIN_FRAME then MrpFrames.MIN_FRAME else cc
  }

  /** The first `k` events of `es` took the instance through the states `s`, sending `os`. */
  ghost predicate Ran(s: seq<Node>, os: seq<seq<Output>>, es: seq<(nat, Event)>, k: nat) {
    && k <= |es| && |s| == k + 1 && |os| == k
    && forall j :: 0 <= j < k ==> s[j + 1] == s[j].Step(es[j].0, es[j].1) && os[j] == s[j].Out(es[j].1)
  }

  lemma RanOn(s: seq<Node>, os: seq<seq<Output>>, es: seq<(nat, Event)>, k: nat, n: Node, o: seq<Output>)
    requires Ran(s, os, es, k) && k < |es| && n == s[k].Step(es[k].0, es[k].1) && o == s[k].Out(es[k].1)
    ensures Ran(s + [n], os + [o], es, k + 1)
  {
  }

  /** The port table of a fixed-role manager, on the ports that its references lead to. */
  lemma ManagerPorts(m: Mrp)
    requires m.Valid() && FixedMrm(m.cfg, m.Now(), m.InNow())
    ensures m.ports.pPort != m.ports.sPort && {m.ports.pPort, m.ports.sPort} == {m.ports.a, m.ports.b}
    ensures m.ports.pPort.state == if m.ring.mrm == MrmAcStat1 then Blocked else Forwarding
    ensures m.ports.sPort.state == if m.ring.mrm == ChkRo then Forwarding else Blocked
  {
  }
}
