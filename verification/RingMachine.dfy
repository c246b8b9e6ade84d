/** The ring half of an instance as a value: the MRM and MRC machines of
    `state_machine.c` and `timer.c`, without the frames they send. */
module MrpRing {
  import opened MrpTypes
  import opened EtherAddr

  /** `(prio, mac)` order of `mrp_better_than_own` and `mrp_better_than_host`: smaller is better. */
  predicate Better(prio: u16, mac: Mac, prio': u16, mac': Mac) {
    prio < prio' || (prio == prio' && ToU64(mac) < ToU64(mac'))
  }

  /** `p` and `s` are what `p_port` and `s_port` point to and `primary` says which of the
      two ring ports `p_port` is. */
  datatype Ring = Ring(
    role: RingRole,
    mrm: MrmState,
    mrc: MrcState,
    primary: RingPort,
    p: PortRec,
    s: PortRec,
    addTest: bool,
    noTc: bool,
    transitions: u16,
    testCurr: nat,
    testCurrMax: nat,
    monCurr: nat,
    topoCurrMax: nat,
    topoRunning: bool,
    linkCurrMax: nat,
    ringPrio: u16,
    ringMac: Mac,
    test: Timer,
    topo: Timer,
    linkUp: Timer,
    linkDown: Timer,
    clearFdb: Timer
  ) {
    function Port(x: RingPort): PortRec { if x == primary then p else s }

    // ---- Received frames

    /** The manager receives one of its own MRP_Test frames. */
    function RecvOwnTest(c: Config, now: nat): Ring {
      match mrm
      case MrmAcStat1 => this
      case PrmUp =>
        this.(testCurrMax := c.testMax - 1, testCurr := 0, noTc := false,
              test := Timer.Again(now, c.testInterval), mrm := ChkRc)
      case ChkRo =>
        this.(s := s.(state := Blocked), testCurrMax := c.testMax - 1, testCurr := 0, noTc := false,
              test := Timer.Again(now, c.testInterval),
              topoRunning := topoRunning || !c.react,
              topo := if c.react then topo else Timer.Again(now, c.topoInterval),
              mrm := ChkRc)
      case ChkRc => this.(testCurrMax := c.testMax - 1, testCurr := 0, noTc := false)
    }

    /** A demoted auto-manager watches foreign MRP_Test frames; a manager only answers them. */
    function RecvForeignTest(c: Config, prio: u16, sa: Mac): Ring {
      if role == MRM || MacEqual(sa, ringMac) then this
      else this.(monCurr := if Better(prio, sa, c.prio, c.mac) then 0 else monCurr, ringPrio := Swap16(prio))
    }

    function RecvTest(c: Config, now: nat, prio: u16, sa: Mac): Ring {
      if MacEqual(sa, c.mac) then RecvOwnTest(c, now)
      else if c.mra then RecvForeignTest(c, prio, sa)
      else this
    }

    /** A client receives MRP_TopologyChange. */
    function MrcRecvTopo(c: Config, now: nat, ms: u16): Ring {
      var due := Timer.Again(now, ms * 1000);
      match mrc
      case MrcAcStat1 => this
      case DeIdle => this.(clearFdb := due)
      case PassThrough =>
        this.(linkCurrMax := c.linkMax, linkUp := Idle, s := s.(state := Forwarding), clearFdb := due, mrc := PtIdle)
      case DataExchange => this.(linkCurrMax := c.linkMax, linkDown := Idle, clearFdb := due, mrc := DeIdle)
      case PtIdle => this.(clearFdb := due)
    }

    function RecvTopo(c: Config, now: nat, sa: Mac, ms: u16): Ring {
      if c.mra && role == MRM then
        if MacEqual(sa, c.mac) then this else this.(clearFdb := Timer.Again(now, ms * 1000))
      else MrcRecvTopo(c, now, ms)
    }

    /** An extra pair of test frames re-arms the test timer, at most once per expiry. */
    function ExtraTest(now: nat, us: nat): Ring {
      if addTest then this else this.(addTest := true, test := Timer.Again(now, us))
    }

    /** MRP_LinkUp and MRP_LinkDown, which only a manager processes. */
    function RecvLink(c: Config, now: nat, up: bool): Ring {
      match mrm
      case MrmAcStat1 => this
      case PrmUp =>
        if c.blocked != 0 then ExtraTest(now, c.testInterval)
        else if up then ExtraTest(now, c.testShort)
        else this
      case ChkRo =>
        if up && c.blocked == 0 then
          this.(s := s.(state := Blocked), testCurrMax := c.testMax - 1, testCurr := 0,
                test := Timer.Again(now, if addTest then c.testInterval else c.testShort),
                addTest := true, noTc := false, mrm := ChkRc)
        else ExtraTest(now, c.testShort)
      case ChkRc =>
        if !c.react then if c.blocked != 0 then ExtraTest(now, c.testShort) else this
        else if up then this.(testCurrMax := c.testMax - 1)
        else this.(s := s.(state := Forwarding), transitions := Inc16(transitions),
                   noTc := false, mrm := ChkRo)
    }

    /** A TestMgrNAck is taken up by the manager it names, unless that manager sent it. */
    predicate TakesNack(c: Config, sa: Mac, otherSa: Mac) {
      role == MRM && !MacEqual(sa, c.mac) && MacEqual(otherSa, c.mac)
    }

    /** The best manager this node has heard of, once it has read a TestMgrNAck. */
    function HostAfter(prio: u16, sa: Mac): (u16, Mac) {
      if Better(prio, sa, ringPrio, ringMac) then (prio, sa) else (ringPrio, ringMac)
    }

    function Heard(prio: u16, sa: Mac): Ring {
      this.(ringPrio := HostAfter(prio, sa).0, ringMac := HostAfter(prio, sa).1)
    }

    /** A manager that gives up its role stops announcing and opens the ring it had closed. */
    function LetGo(c: Config): Ring {
      this.(s := if mrm == ChkRc then s.(state := Forwarding) else s,
            topoRunning := false, topo := Idle, linkCurrMax := c.linkMax, monCurr := 0)
    }

    function Demoted(): Ring {
      this.(mrc := (match mrm
                    case MrmAcStat1 => mrc
                    case PrmUp => DeIdle
                    case ChkRo => PtIdle
                    case ChkRc => PtIdle),
            role := if mrm == MrmAcStat1 then role else MRC)
    }

    function RecvNack(c: Config, prio: u16, sa: Mac, otherSa: Mac): Ring {
      if !TakesNack(c, sa, otherSa) then this else Heard(prio, sa).LetGo(c).Demoted()
    }

    function RecvPropagate(c: Config, prio: u16, sa: Mac, otherPrio: u16, otherSa: Mac): Ring {
      if role == MRM || !MacEqual(sa, c.mac) || otherPrio != prio then this
      else this.(ringPrio := otherPrio, ringMac := otherSa, monCurr := 0)
    }

    /** A manager announces an interconnect topology change on its ring, unless it is announcing already;
        an interconnection manager also schedules a flush for a foreign one. */
    function RecvInTopo(c: Config, now: nat, r: InRole, sa: Mac, ms: u16): Ring {
      var starts := role == MRM && !topoRunning && ms != 0;
      this.(topoRunning := topoRunning || starts,
            topo := if starts then Timer.Again(now, c.topoInterval) else topo,
            clearFdb := if r == MIM && !MacEqual(sa, c.mac) then Timer.Again(now, ms * 1000) else clearFdb)
    }

    /** `mrp_should_process`; the option frames share the test of the MRP_InTest case. */
    predicate Processes(c: Config, r: InRole, pdu: Pdu) {
      match pdu
      case Test(_, _, _, _, _) => role == MRM || c.mra
      case Link(_, _, _, _, _) => role == MRM
      case Topo(_, _, _) => role == MRC || c.mra
      case Nack(_, _, _, _) => c.mra || r == MIM
      case Propagate(_, _, _, _) => c.mra || r == MIM
      case OtherOption => c.mra || r == MIM
      case InTest(_, _, _, _, _) => r == MIM
      case InTopo(_, _, _) => r != InDisabled || role == MRM
      case InLink(_, _, _, _, _) => r == MIM
      case InLinkStatus(_, _, _) => false
      case Unknown => false
    }

    /** `mrp_process`, as far as the ring half is concerned. */
    function Recv(c: Config, now: nat, r: InRole, pdu: Pdu): Ring {
      if !Processes(c, r, pdu) then this
      else
        match pdu
        case Test(prio, sa, _, _, _) => RecvTest(c, now, prio, sa)
        case Topo(_, sa, ms) => RecvTopo(c, now, sa, ms)
        case Link(up, _, _, _, _) => RecvLink(c, now, up)
        case Nack(prio, sa, _, otherSa) => RecvNack(c, prio, sa, otherSa)
        case Propagate(prio, sa, otherPrio, otherSa) => RecvPropagate(c, prio, sa, otherPrio, otherSa)
        case InTopo(sa, _, ms) => RecvInTopo(c, now, r, sa, ms)
        case _ => this
    }

    // ---- Link changes

    /** `p_port` and `s_port` exchange their referents. */
    function Swap(): Ring { this.(primary := primary.Other(), p := s, s := p) }

    function MrmStart(c: Config, now: nat): Ring {
      this.(p := p.(state := Forwarding), test := Timer.Again(now, c.testInterval), noTc := false, mrm := PrmUp)
    }

    /** The manager lost its primary port and, having swapped, goes on with the other one. */
    function MrmFailover(c: Config, now: nat): Ring {
      this.(s := s.(state := Blocked), p := if mrm == ChkRc then p.(state := Forwarding) else p,
            test := Timer.Again(now, c.testInterval), topoRunning := true, topo := Timer.Again(now, c.topoInterval),
            transitions := if mrm == ChkRc then Inc16(transitions) else transitions,
            noTc := false, mrm := PrmUp)
    }

    function MrmPortLink(c: Config, now: nat, x: RingPort, up: bool): Ring {
      var isP := x == primary;
      match mrm
      case MrmAcStat1 => if !up then this else if isP then MrmStart(c, now) else Swap().MrmStart(c, now)
      case PrmUp =>
        if !up && isP then this.(test := Idle, p := p.(state := Blocked), noTc := false, mrm := MrmAcStat1)
        else if up && !isP then
          this.(testCurrMax := c.testMax - 1, testCurr := 0, test := Timer.Again(now, c.testInterval),
                noTc := false, mrm := ChkRc)
        else this
      case ChkRo =>
        if up then this
        else if isP then Swap().MrmFailover(c, now)
        else this.(s := s.(state := Blocked), noTc := false, mrm := PrmUp)
      case ChkRc =>
        if up then this
        else if isP then Swap().MrmFailover(c, now)
        else this.(transitions := Inc16(transitions), noTc := false, mrm := PrmUp)
    }

    function MrcStart(): Ring { this.(p := p.(state := Forwarding), mrc := DeIdle) }

    /** A client whose second ring port came up waits before it opens that port. */
    function AnnounceUp(c: Config, now: nat): Ring {
      this.(linkCurrMax := c.linkMax, linkDown := if mrc == DataExchange then Idle else linkDown,
            linkUp := Timer.Again(now, c.linkInterval), mrc := PassThrough)
    }

    /** A client that lost one of two ring links closes the secondary port. */
    function AnnounceDown(c: Config, now: nat): Ring {
      this.(linkCurrMax := c.linkMax, linkUp := if mrc == PassThrough then Idle else linkUp,
            s := s.(state := Blocked), linkDown := Timer.Again(now, c.linkInterval), mrc := DataExchange)
    }

    function MrcPortLink(c: Config, now: nat, x: RingPort, up: bool): Ring {
      var isP := x == primary;
      match mrc
      case MrcAcStat1 => if !up then this else if isP then MrcStart() else Swap().MrcStart()
      case DeIdle =>
        if up && !isP then AnnounceUp(c, now)
        else if !up && isP then this.(p := p.(state := Blocked), mrc := MrcAcStat1)
        else this
      case PassThrough =>
        if up then this
        else if isP then
          var r := Swap(); r.(p := r.p.(state := Forwarding)).AnnounceDown(c, now)
        else AnnounceDown(c, now)
      case DataExchange =>
        if up && !isP then AnnounceUp(c, now)
        else if !up && isP then
          this.(linkCurrMax := c.linkMax, p := p.(state := Blocked), linkDown := Idle, mrc := MrcAcStat1)
        else this
      case PtIdle =>
        if up then this else if isP then Swap().AnnounceDown(c, now) else AnnounceDown(c, now)
    }

    function SetOper(x: RingPort, up: bool): Ring {
      this.(p := if x == primary then p.(up := up) else p, s := if x == primary then s else s.(up := up))
    }

    function LinkChange(c: Config, now: nat, x: RingPort, up: bool): Ring {
      var r := SetOper(x, up);
      if role == MRM then r.MrmPortLink(c, now, x, up) else r.MrcPortLink(c, now, x, up)
    }

    // ---- Timer expiries

    /** A missed observation is counted; one too many opens the ring. */
    function MrmTestExpired(c: Config, now: nat): Ring {
      var due := Timer.Again(now, c.testInterval);
      match mrm
      case MrmAcStat1 => this
      case PrmUp => this.(addTest := false, test := due)
      case ChkRo => this.(addTest := false, test := due)
      case ChkRc =>
        if testCurr < testCurrMax then this.(testCurr := testCurr + 1, addTest := false, test := due)
        else
          this.(s := s.(state := Forwarding), testCurrMax := c.testMax - 1, testCurr := 0, addTest := false,
                topoRunning := topoRunning || !noTc,
                topo := if noTc then topo else Timer.Again(now, c.topoInterval),
                test := due, transitions := Inc16(transitions), noTc := false, mrm := ChkRo)
    }

    /** The monitoring countdown of a demoted auto-manager. */
    function MrcTestExpired(c: Config, now: nat): Ring {
      if monCurr <= c.monMax then this.(monCurr := monCurr + 1, test := Timer.Again(now, c.testShort))
      else
        this.(test := Timer.Again(now, c.testShort), addTest := false, noTc := false, testCurr := 0,
              mrm := (match mrc
                      case MrcAcStat1 => mrm
                      case DeIdle => PrmUp
                      case PassThrough => ChkRc
                      case DataExchange => PrmUp
                      case PtIdle => ChkRo),
              role := if mrc == MrcAcStat1 then MRC else MRM)
    }

    function TestExpired(c: Config, now: nat): Ring {
      if role == MRM then MrmTestExpired(c, now)
      else if c.mra then MrcTestExpired(c, now)
      else this
    }

    function TopoExpired(c: Config): Ring {
      if topoCurrMax > 0 then this.(topoCurrMax := topoCurrMax - 1)
      else this.(topoCurrMax := c.topoMax - 1, topoRunning := false, topo := Idle)
    }

    function LinkUpExpired(c: Config, now: nat): Ring {
      if linkCurrMax > 0 then this.(linkCurrMax := linkCurrMax - 1, linkUp := Timer.Again(now, c.linkInterval))
      else this.(linkCurrMax := c.linkMax, s := s.(state := Forwarding), mrc := PtIdle, linkUp := Idle)
    }

    function LinkDownExpired(c: Config, now: nat): Ring {
      if linkCurrMax > 0 then this.(linkCurrMax := linkCurrMax - 1, linkDown := Timer.Again(now, c.linkInterval))
      else this.(linkCurrMax := c.linkMax, mrc := DeIdle, linkDown := Idle)
    }

    /** libev advances the timer, then calls back. */
    function Expire(c: Config, now: nat, t: TimerId): Ring {
      match t
      case ClearFdbT => if clearFdb.Idle? then this else this.(clearFdb := Idle)
      case RingTestT => if test.Idle? then this else this.(test := test.Fired(now)).TestExpired(c, now)
      case RingTopoT => if topo.Idle? then this else this.(topo := topo.Fired(now)).TopoExpired(c)
      case RingLinkUpT => if linkUp.Idle? then this else this.(linkUp := linkUp.Fired(now)).LinkUpExpired(c, now)
      case RingLinkDownT =>
        if linkDown.Idle? then this else this.(linkDown := linkDown.Fired(now)).LinkDownExpired(c, now)
      case _ => this
    }

    // ---- Events

    /** What an event does to the ring half; `passed` says that a received frame was not dropped. */
    function Step(c: Config, r: InRole, now: nat, e: Event, passed: bool): Ring {
      match e
      case LinkChange(OnRing(x), up) => LinkChange(c, now, x, up)
      case Receive(_, pdu) => if passed then Recv(c, now, r, pdu) else this
      case Expire(t) => Expire(c, now, t)
      case _ => this
    }

    /** The ring timers that `mrp_timer_stop` stops. */
    function StopTimers(): Ring {
      this.(topoRunning := false, topo := Idle, linkUp := Idle, linkDown := Idle, test := Idle, clearFdb := Idle)
    }
  }
}
