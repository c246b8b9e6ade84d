/** The interconnection half of an instance as a value: the MIM and MIC machines of
    `state_machine.c` and `timer.c`, without the frames they send. */
module MrpInter {
  import opened MrpTypes

  /** `present` is `i_port != NULL`. */
  datatype Inter = Inter(
    role: InRole,
    mim: MimState,
    mic: MicState,
    present: bool,
    port: PortRec,
    transitions: u16,
    testCurr: nat,
    testCurrMax: nat,
    topoCurrMax: nat,
    linkCurrMax: nat,
    statusCurrMax: nat,
    test: Timer,
    topo: Timer,
    linkUp: Timer,
    linkDown: Timer,
    status: Timer,
    ccm: Timer
  ) {
    // ---- Received frames

    function RecvInTest(c: Config, now: nat, id: u16): Inter {
      if c.inId != id then this
      else
        match mim
        case MimAcStat1 =>
          this.(port := port.(state := Blocked), testCurrMax := c.inTestMax - 1, testCurr := 0,
                test := Timer.Again(now, c.inTestInterval), mim := ChkIc)
        case ChkIo =>
          this.(port := port.(state := Blocked), testCurrMax := c.inTestMax - 1, testCurr := 0,
                topo := Timer.Again(now, c.inTopoInterval), test := Timer.Again(now, c.inTestInterval), mim := ChkIc)
        case ChkIc => this.(testCurrMax := c.inTestMax - 1, testCurr := 0)
    }

    /** Only an interconnection client changes its state on a topology change. */
    function RecvInTopo(c: Config, id: u16): Inter {
      if role != MIC then this
      else
        match mic
        case MicAcStat1 => this.(linkDown := if id == c.inId then Idle else linkDown)
        case MicPt =>
          this.(linkCurrMax := c.inLinkMax, linkUp := Idle, port := port.(state := Forwarding), mic := IpIdle)
        case IpIdle => this
    }

    function RecvInLink(c: Config, now: nat, up: bool, id: u16): Inter {
      if id != c.inId then this
      else
        match mim
        case MimAcStat1 => this
        case ChkIo => if up then this.(test := Timer.Again(now, c.inTestInterval)) else this
        case ChkIc =>
          if up then this.(testCurrMax := c.inTestMax, topo := Timer.Again(now, c.inTopoInterval))
          else this.(port := port.(state := Forwarding), topo := Timer.Again(now, c.inTopoInterval), mim := ChkIo)
    }

    /** `mrp_process`, as far as the interconnection half is concerned. */
    function Recv(c: Config, now: nat, pdu: Pdu): Inter {
      match pdu
      case InTest(id, _, _, _, _) => if role == MIM then RecvInTest(c, now, id) else this
      case InTopo(_, id, _) => RecvInTopo(c, id)
      case InLink(up, _, _, id, _) => if role == MIM then RecvInLink(c, now, up, id) else this
      case _ => this
    }

    // ---- Link changes

    function MimPortLink(c: Config, now: nat, up: bool): Inter {
      var blocked := port.(state := Blocked);
      match (c.inMode, mim, up)
      case (RC, MimAcStat1, true) =>
        this.(port := blocked, testCurrMax := c.inTestMax - 1, testCurr := 0,
              test := Timer.Again(now, c.inTestInterval), mim := ChkIc)
      case (LC, MimAcStat1, true) =>
        this.(port := blocked, statusCurrMax := c.inStatusMax, status := Timer.Again(now, c.inStatusInterval),
              mim := ChkIc)
      case (_, _, true) => this
      case (_, MimAcStat1, false) => this
      case (RC, _, false) =>
        this.(port := blocked, topo := Timer.Again(now, c.inTopoInterval), test := Timer.Again(now, c.inTestInterval),
              mim := MimAcStat1)
      case (LC, ChkIo, false) => this.(port := blocked, status := Idle, mim := MimAcStat1)
      case (LC, ChkIc, false) => this.(port := blocked, mim := MimAcStat1)
    }

    function MicPortLink(c: Config, now: nat, up: bool): Inter {
      if up && mic == MicAcStat1 then
        this.(linkCurrMax := c.inLinkMax, linkDown := Idle, linkUp := Timer.Again(now, c.inLinkInterval), mic := MicPt)
      else if !up && mic != MicAcStat1 then
        this.(linkCurrMax := c.inLinkMax, linkUp := if mic == MicPt || c.inMode == LC then Idle else linkUp,
              port := port.(state := Blocked), linkDown := Timer.Again(now, c.inLinkInterval), mic := MicAcStat1)
      else this
    }

    /** `operstate` is recorded, then the machine of the instance's role is run. */
    function PortLink(c: Config, now: nat, up: bool): Inter {
      var i := this.(port := port.(up := up));
      match role
      case InDisabled => i
      case MIM => i.MimPortLink(c, now, up)
      case MIC => i.MicPortLink(c, now, up)
    }

    // ---- Timer expiries

    function TestExpired(c: Config, now: nat): Inter {
      match mim
      case MimAcStat1 => this
      case ChkIo => this.(test := Timer.Again(now, c.inTestInterval))
      case ChkIc =>
        if testCurr < testCurrMax then this.(testCurr := testCurr + 1, test := Timer.Again(now, c.inTestInterval))
        else
          this.(port := port.(state := Forwarding), testCurrMax := c.inTestMax - 1, testCurr := 0,
                topo := Timer.Again(now, c.inTopoInterval), test := Timer.Again(now, c.inTestInterval),
                transitions := Inc16(transitions), mim := ChkIo)
    }

    function TopoExpired(c: Config): Inter {
      if topoCurrMax > 0 then this.(topoCurrMax := topoCurrMax - 1)
      else this.(topoCurrMax := c.inTopoMax - 1, topo := Idle)
    }

    function LinkUpExpired(c: Config, now: nat): Inter {
      if linkCurrMax > 0 then this.(linkCurrMax := linkCurrMax - 1, linkUp := Timer.Again(now, c.inLinkInterval))
      else this.(linkCurrMax := c.inLinkMax, port := port.(state := Forwarding), mic := IpIdle, linkUp := Idle)
    }

    function LinkDownExpired(c: Config, now: nat): Inter {
      if linkCurrMax > 0 then this.(linkCurrMax := linkCurrMax - 1, linkDown := Timer.Again(now, c.inLinkInterval))
      else this.(linkCurrMax := c.inLinkMax, linkDown := Idle)
    }

    function StatusExpired(c: Config, now: nat): Inter {
      if statusCurrMax == 0 then this.(statusCurrMax := c.inStatusMax, status := Idle)
      else
        this.(statusCurrMax := statusCurrMax - 1,
              status := if U32((statusCurrMax - 1) * c.inStatusInterval) == 0 then status
                        else Timer.Again(now, c.inStatusInterval))
    }

    /** libev advances the timer, then calls back. */
    function Expire(c: Config, now: nat, t: TimerId): Inter {
      match t
      case InTestT => if test.Idle? then this else this.(test := test.Fired(now)).TestExpired(c, now)
      case InTopoT => if topo.Idle? then this else this.(topo := topo.Fired(now)).TopoExpired(c)
      case InLinkUpT => if linkUp.Idle? then this else this.(linkUp := linkUp.Fired(now)).LinkUpExpired(c, now)
      case InLinkDownT =>
        if linkDown.Idle? then this else this.(linkDown := linkDown.Fired(now)).LinkDownExpired(c, now)
      case InLinkStatusT => if status.Idle? then this else this.(status := status.Fired(now)).StatusExpired(c, now)
      case CfmCcmT => if ccm.Idle? then this else this.(ccm := Timer.Again(now, c.ccmPeriod))
      case _ => this
    }

    // ---- Events

    /** In LC mode the link state of the interconnection port comes from CFM alone. */
    function Step(c: Config, now: nat, e: Event, passed: bool): Inter {
      match e
      case LinkChange(OnInter, up) => if present && c.inMode == RC then PortLink(c, now, up) else this
      case CfmChange(defect) => if present then PortLink(c, now, !defect) else this
      case Receive(_, pdu) => if passed then Recv(c, now, pdu) else this
      case Expire(t) => Expire(c, now, t)
      case _ => this
    }

    /** The interconnection timers that `mrp_timer_stop` stops. */
    function StopTimers(c: Config): Inter {
      if role == InDisabled then this
      else if c.inMode == RC then this.(topo := Idle, linkUp := Idle, linkDown := Idle, test := Idle)
      else this.(topo := Idle, linkUp := Idle, linkDown := Idle, status := Idle, ccm := Idle)
    }
  }
}
