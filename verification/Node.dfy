/** One MRP instance as a value: the ring half and the interconnection half advance together,
    and this module adds what the instance sends, relays and flushes on the way. */
module MrpNode {
  import opened MrpTypes
  import opened EtherAddr
  import opened MrpRing
  import opened MrpInter

  /** The role a port was created with, which the frames it sends carry. */
  function RoleOf(to: PortRef): PortRole {
    match to
    case OnRing(PortA) => Primary
    case OnRing(PortB) => Secondary
    case OnInter => Interconnect
  }

  /** Where a received frame is passed on to. */
  datatype Plan = Plan(toP: bool, toS: bool, toI: bool)

  const NOWHERE := Plan(false, false, false)

  /** `mrp_should_drop` on a port in the given state. */
  predicate Drops(state: PortState, onRing: bool, pdu: Pdu) {
    || state == Disabled
    || (state == Blocked && onRing && !(pdu.IsRingFrame() || pdu.InTopo? || pdu.InLink?))
    || (state == Blocked && !onRing && !(pdu.InTest? || pdu.InLink? || pdu.InTopo?))
  }

  datatype Node = Node(cfg: Config, ring: Ring, inter: Inter)
  {
    function PRef(): PortRef { OnRing(ring.primary) }

    function SRef(): PortRef { OnRing(ring.primary.Other()) }

    predicate IsUp(to: PortRef) {
      match to
      case OnRing(x) => ring.Port(x).up
      case OnInter => inter.present && inter.port.up
    }

    function StateOf(at: PortRef): PortState {
      match at
      case OnRing(x) => ring.Port(x).state
      case OnInter => inter.port.state
    }

    // ---- The frames an instance composes

    function Send(to: PortRef, pdu: Pdu): Output { Sent(to, IsUp(to), pdu) }

    function SendRing(pdu: Pdu): seq<Output> { [Send(PRef(), pdu), Send(SRef(), pdu)] }

    function TestPdu(to: PortRef): Pdu {
      Test(cfg.prio, cfg.mac, RoleOf(to), ring.mrm == ChkRc, ring.transitions)
    }

    function TestFrames(): seq<Output> { [Send(PRef(), TestPdu(PRef())), Send(SRef(), TestPdu(SRef()))] }

    function TopoFrames(us: nat): seq<Output> { SendRing(Topo(cfg.prio, cfg.mac, WireMs(us))) }

    /** `mrp_ring_topo_req` announces `us * topoMax`; a zero interval flushes at once. */
    function TopoBurst(us: nat): seq<Output> {
      TopoFrames(U32(us * cfg.topoMax)) + FlushIf(us == 0)
    }

    /** `mrp_ring_link_req` on the current primary port. */
    function LinkFrame(up: bool, count: nat): Output {
      Send(PRef(), Link(up, cfg.mac, RoleOf(PRef()), WireMs(U32(count * cfg.linkInterval)), cfg.blocked))
    }

    function InTestPdu(to: PortRef): Pdu {
      InTest(cfg.inId, cfg.mac, RoleOf(to), inter.mim == ChkIc, inter.transitions)
    }

    function InTestFrames(): seq<Output> {
      [Send(PRef(), InTestPdu(PRef())), Send(SRef(), InTestPdu(SRef())), Send(OnInter, InTestPdu(OnInter))]
    }

    function InTopoFrames(count: nat): seq<Output> {
      var f := InTopo(cfg.mac, cfg.inId, WireMs(U32(count * cfg.inTopoInterval)));
      [Send(PRef(), f), Send(SRef(), f), Send(OnInter, f)]
    }

    function InLinkPdu(to: PortRef, up: bool, count: nat): Pdu {
      InLink(up, cfg.mac, RoleOf(to), cfg.inId, WireMs(U32(count * cfg.inLinkInterval)))
    }

    function InLinkFrames(up: bool, count: nat): seq<Output> {
      [Send(PRef(), InLinkPdu(PRef(), up, count)), Send(SRef(), InLinkPdu(SRef(), up, count)),
       Send(OnInter, InLinkPdu(OnInter, up, count))]
    }

    function StatusFrames(): seq<Output> {
      [Send(PRef(), InLinkStatus(cfg.mac, RoleOf(PRef()), cfg.inId)),
       Send(SRef(), InLinkStatus(cfg.mac, RoleOf(SRef()), cfg.inId))]
    }

    function FlushIf(now: bool): seq<Output> { if now then [Flushed] else [] }

    // ---- What the handlers of received frames send

    function OwnTestOut(): seq<Output> {
      match ring.mrm
      case PrmUp => TestFrames()
      case ChkRo => TestFrames() + TopoBurst(if cfg.react then 0 else cfg.topoInterval)
      case _ => []
    }

    /** A manager with auto-manager support denies the test frames of a worse manager. */
    function ForeignTestOut(prio: u16, sa: Mac): seq<Output> {
      if ring.role == MRM && !Better(prio, sa, cfg.prio, cfg.mac) then SendRing(Nack(cfg.prio, cfg.mac, 0, sa))
      else []
    }

    function RecvTestOut(prio: u16, sa: Mac): seq<Output> {
      if MacEqual(sa, cfg.mac) then OwnTestOut()
      else if cfg.mra then ForeignTestOut(prio, sa)
      else []
    }

    function RecvTopoOut(sa: Mac, ms: u16): seq<Output> {
      if cfg.mra && ring.role == MRM then FlushIf(ms == 0 && !MacEqual(sa, cfg.mac))
      else FlushIf(ms == 0 && ring.mrc != MrcAcStat1)
    }

    function ExtraTestOut(): seq<Output> { if ring.addTest then [] else TestFrames() }

    function RecvLinkOut(up: bool): seq<Output> {
      match ring.mrm
      case MrmAcStat1 => []
      case PrmUp =>
        if cfg.blocked != 0 then ExtraTestOut()
        else if up then ExtraTestOut() + TopoBurst(0)
        else []
      case ChkRo => if up && cfg.blocked == 0 then TestFrames() + TopoBurst(0) else ExtraTestOut()
      case ChkRc =>
        if cfg.react then TopoBurst(0)
        else if cfg.blocked != 0 then ExtraTestOut()
        else []
    }

    function RecvNackOut(prio: u16, sa: Mac, otherSa: Mac): seq<Output> {
      if ring.TakesNack(cfg, sa, otherSa) then
        var host := ring.HostAfter(prio, sa);
        SendRing(Propagate(cfg.prio, cfg.mac, host.0, host.1))
      else []
    }

    function RecvInTestOut(id: u16): seq<Output> {
      if cfg.inId != id then []
      else
        match inter.mim
        case MimAcStat1 => InTestFrames()
        case ChkIo => InTopoFrames(cfg.inTopoMax) + InTestFrames()
        case ChkIc => []
    }

    function RecvInTopoOut(sa: Mac, ms: u16): seq<Output> {
      (if ring.role == MRM && !ring.topoRunning then TopoBurst(ms * 1000) else []) +
      FlushIf(inter.role == MIM && !MacEqual(sa, cfg.mac) && ms == 0)
    }

    function RecvInLinkOut(up: bool, id: u16): seq<Output> {
      if id != cfg.inId then []
      else
        match inter.mim
        case MimAcStat1 => []
        case ChkIo => if up then InTestFrames() else []
        case ChkIc => InTopoFrames(cfg.inTopoMax)
    }

    function ProcessOut(pdu: Pdu): seq<Output> {
      if !ring.Processes(cfg, inter.role, pdu) then []
      else
        match pdu
        case Test(prio, sa, _, _, _) => RecvTestOut(prio, sa)
        case Topo(_, sa, ms) => RecvTopoOut(sa, ms)
        case Link(up, _, _, _, _) => RecvLinkOut(up)
        case Nack(prio, sa, _, otherSa) => RecvNackOut(prio, sa, otherSa)
        case InTest(id, _, _, _, _) => RecvInTestOut(id)
        case InTopo(sa, _, ms) => RecvInTopoOut(sa, ms)
        case InLink(up, _, _, id, _) => RecvInLinkOut(up, id)
        case _ => []
    }

    // ---- Dropping and forwarding of frames

    /** A frame cannot arrive on a port that does not exist. */
    predicate ShouldDrop(at: PortRef, pdu: Pdu) {
      (at.OnInter? && !inter.present) || Drops(StateOf(at), at.OnRing?, pdu)
    }

    /** The ports a frame may leave through, judging by the port it came in on alone. */
    function OpenPlan(at: PortRef): Plan {
      if at == PRef() then Plan(false, true, inter.present)
      else if at == SRef() then Plan(true, false, inter.present)
      else Plan(true, true, false)
    }

    /** What the ring role leaves of the plan for an interconnect frame. */
    function InPlanByRing(at: PortRef, pdu: Pdu): Plan {
      var o := OpenPlan(at);
      var cut := at.OnRing? &&
                 (match ring.role
                  case MRM => ring.p.state != Forwarding || ring.s.state != Forwarding
                  case MRC => inter.role != InDisabled && cfg.inId == pdu.ForwardingId());
      if cut then Plan(false, false, o.toI) else o
    }

    /** What the interconnect role leaves of the plan for an interconnect frame. */
    function InPlan(at: PortRef, pdu: Pdu): Plan {
      var r := InPlanByRing(at, pdu);
      match inter.role
      case InDisabled => r
      case MIM =>
        if pdu.InTest? && MacEqual(pdu.sa, cfg.mac) then NOWHERE
        else if at.OnInter? then NOWHERE
        else r.(toI := false)
      case MIC =>
        if pdu.InTest? then r
        else if pdu.InLink? && at.OnRing? then r
        else if pdu.InLinkStatus? && at.OnRing? then Plan(false, false, r.toI)
        else if pdu.InTopo? then r.(toI := false)
        else NOWHERE
    }

    /** `mrp_check_and_forward`. */
    function ForwardPlan(at: PortRef, pdu: Pdu): Plan {
      if pdu.IsRingFrame() then
        if at.OnInter? || ring.role == MRM || (pdu.IsOption() && !cfg.mra) then NOWHERE
        else OpenPlan(at).(toI := false)
      else if pdu.IsInFrame() then InPlan(at, pdu)
      else OpenPlan(at)
    }

    function Relay(yes: bool, to: PortRef, pdu: Pdu): seq<Output> {
      if yes then [Relayed(to, IsUp(to), pdu)] else []
    }

    function ForwardOut(at: PortRef, pdu: Pdu): seq<Output> {
      var plan := ForwardPlan(at, pdu);
      Relay(plan.toP, PRef(), pdu) + Relay(plan.toS, SRef(), pdu) + Relay(plan.toI, OnInter, pdu)
    }

    function ReceiveOut(at: PortRef, pdu: Pdu): seq<Output> {
      if ShouldDrop(at, pdu) then [] else ForwardOut(at, pdu) + ProcessOut(pdu)
    }

    // ---- What link changes send

    /** The frames of a manager that lost its primary port, sent after the two ports were swapped. */
    function FailoverOut(): seq<Output> {
      var n := this.(ring := ring.Swap());
      n.TestFrames() + n.TopoBurst(cfg.topoInterval)
    }

    function MrmPortLinkOut(x: RingPort, up: bool): seq<Output> {
      var isP := x == ring.primary;
      match ring.mrm
      case MrmAcStat1 => if !up then [] else if isP then TestFrames() else this.(ring := ring.Swap()).TestFrames()
      case PrmUp => if up && !isP then TestFrames() else []
      case ChkRo => if !up && isP then FailoverOut() else []
      case ChkRc => if !up && isP then FailoverOut() else []
    }

    function MrcPortLinkOut(x: RingPort, up: bool): seq<Output> {
      var isP := x == ring.primary;
      if up then
        if (ring.mrc == DeIdle || ring.mrc == DataExchange) && !isP then [LinkFrame(true, cfg.linkMax)] else []
      else if ring.mrc == PassThrough || ring.mrc == PtIdle then
        [(if isP then this.(ring := ring.Swap()) else this).LinkFrame(false, cfg.linkMax)]
      else []
    }

    function RingLinkOut(x: RingPort, up: bool): seq<Output> {
      var n := this.(ring := ring.SetOper(x, up));
      if ring.role == MRM then n.MrmPortLinkOut(x, up) else n.MrcPortLinkOut(x, up)
    }

    function MimPortLinkOut(up: bool): seq<Output> {
      if up then
        if inter.mim != MimAcStat1 then []
        else if cfg.inMode == RC then InTestFrames()
        else StatusFrames()
      else if inter.mim != MimAcStat1 && cfg.inMode == RC then InTopoFrames(cfg.inTopoMax) + InTestFrames()
      else []
    }

    function MicPortLinkOut(up: bool): seq<Output> {
      if up == (inter.mic == MicAcStat1) then InLinkFrames(up, cfg.inLinkMax) else []
    }

    function InPortLinkOut(up: bool): seq<Output> {
      var n := this.(inter := inter.(port := inter.port.(up := up)));
      match inter.role
      case InDisabled => []
      case MIM => n.MimPortLinkOut(up)
      case MIC => n.MicPortLinkOut(up)
    }

    // ---- What timer expiries send

    function TestExpiredOut(): seq<Output> {
      if ring.role == MRC || ring.mrm == MrmAcStat1 then []
      else if ring.mrm == ChkRc && ring.testCurr >= ring.testCurrMax then
        (if ring.noTc then [] else TopoBurst(cfg.topoInterval)) + TestFrames()
      else TestFrames()
    }

    function TopoExpiredOut(): seq<Output> {
      if ring.topoCurrMax > 0 then TopoFrames(U32(ring.topoCurrMax * cfg.topoInterval))
      else [Flushed] + TopoFrames(0)
    }

    function InTestExpiredOut(): seq<Output> {
      match inter.mim
      case MimAcStat1 => []
      case ChkIo => InTestFrames()
      case ChkIc =>
        if inter.testCurr < inter.testCurrMax then InTestFrames()
        else InTopoFrames(cfg.inTopoMax) + InTestFrames()
    }

    function ExpireOut(t: TimerId): seq<Output> {
      if TimerOf(t).Idle? then []
      else
        match t
        case ClearFdbT => [Flushed]
        case RingTestT => TestExpiredOut()
        case RingTopoT => TopoExpiredOut()
        case RingLinkUpT => if ring.linkCurrMax > 0 then [LinkFrame(true, ring.linkCurrMax - 1)] else []
        case RingLinkDownT => if ring.linkCurrMax > 0 then [LinkFrame(false, ring.linkCurrMax - 1)] else []
        case InTestT => InTestExpiredOut()
        case InTopoT =>
          if inter.topoCurrMax > 0 then InTopoFrames(inter.topoCurrMax) else [Flushed] + InTopoFrames(0)
        case InLinkUpT => if inter.linkCurrMax > 0 then InLinkFrames(true, inter.linkCurrMax - 1) else []
        case InLinkDownT => if inter.linkCurrMax > 0 then InLinkFrames(false, inter.linkCurrMax - 1) else []
        case InLinkStatusT => if inter.statusCurrMax > 0 then StatusFrames() else []
        case CfmCcmT => []
    }

    function TimerOf(t: TimerId): Timer {
      match t
      case ClearFdbT => ring.clearFdb
      case RingTestT => ring.test
      case RingTopoT => ring.topo
      case RingLinkUpT => ring.linkUp
      case RingLinkDownT => ring.linkDown
      case InTestT => inter.test
      case InTopoT => inter.topo
      case InLinkUpT => inter.linkUp
      case InLinkDownT => inter.linkDown
      case InLinkStatusT => inter.status
      case CfmCcmT => inter.ccm
    }

    // ---- Events

    predicate Passes(e: Event) {
      e.Receive? && !ShouldDrop(e.port, e.pdu)
    }

    /** What event `e` makes the instance send, relay and flush, in that order of execution. */
    function Out(e: Event): seq<Output> {
      match e
      case LinkChange(OnRing(x), up) => RingLinkOut(x, up)
      case LinkChange(OnInter, up) => if inter.present && cfg.inMode == RC then InPortLinkOut(up) else []
      case CfmChange(defect) => if inter.present then InPortLinkOut(!defect) else []
      case Receive(at, pdu) => ReceiveOut(at, pdu)
      case Expire(t) => ExpireOut(t)
    }

    /** What event `e`, taken up at instant `t`, makes of the instance. */
    function Step(t: nat, e: Event): Node {
      Node(cfg, ring.Step(cfg, inter.role, t, e, Passes(e)), inter.Step(cfg, t, e, Passes(e)))
    }
  }
}
