/** Vocabulary of the Media Redundancy Protocol: addresses, ports, PDUs, timers
    and the per-instance configuration written once by `mrp_add`. */
module MrpTypes {

  type u8 = x: nat | x < 0x100
  type u16 = x: nat | x < 0x1_0000

  /** A 6-byte Ethernet address. */
  type Mac = m: seq<u8> | |m| == 6 witness [0, 0, 0, 0, 0, 0]

  /** Reduction to `uint32_t`, written out wherever the program multiplies two of them. */
  function U32(x: nat): (r: nat)
    ensures r < 0x1_0000_0000
    ensures x < 0x1_0000_0000 ==> r == x
  {
    x % 0x1_0000_0000
  }

  /** `uint16_t` increment. */
  function Inc16(x: u16): u16 { if x == 0xFFFF then 0 else x + 1 }

  /** The big-endian 16-bit interval field of a PDU: microseconds to whole milliseconds. */
  function WireMs(us: nat): u16 {
    (us / 1000) % 0x1_0000
  }

  /** Two bytes read as a big-endian number. */
  function Be16(hi: nat, lo: nat): u16
    requires hi < 0x100 && lo < 0x100
  {
    hi * 0x100 + lo
  }

  /** What a little-endian host sees when it reads a big-endian field without swapping it. */
  function Swap16(x: u16): u16 {
    (x % 0x100) * 0x100 + x / 0x100
  }

  datatype RingRole = MRC | MRM
  datatype InRole = InDisabled | MIC | MIM
  datatype InMode = RC | LC
  datatype PortState = Disabled | Blocked | Forwarding
  datatype PortRole = Primary | Secondary | Interconnect

  datatype MrmState = MrmAcStat1 | PrmUp | ChkRo | ChkRc
  datatype MrcState = MrcAcStat1 | DeIdle | PassThrough | DataExchange | PtIdle
  datatype MimState = MimAcStat1 | ChkIo | ChkIc
  datatype MicState = MicAcStat1 | MicPt | IpIdle

  /** The two ring ports of a node, named by the role they were created with;
      which of them is currently `p_port` is part of the node's state. */
  datatype RingPort = PortA | PortB {
    function Other(): RingPort {
      if PortA? then PortB else PortA
    }
  }

  datatype PortRef = OnRing(x: RingPort) | OnInter

  /** A port of the bridge: its MRP state and whether its `operstate` is IF_OPER_UP. */
  datatype PortRec = PortRec(state: PortState, up: bool)

  /** The fields of the MRP frames that the protocol machines read or write.
      The per-frame sequence number and the time stamp belong to the byte format. */
  datatype Pdu =
    | Test(prio: u16, sa: Mac, portRole: PortRole, closed: bool, transitions: u16)
    | Topo(prio: u16, sa: Mac, interval: u16)
    | Link(up: bool, sa: Mac, portRole: PortRole, interval: u16, blocked: u16)
    | Nack(prio: u16, sa: Mac, otherPrio: u16, otherSa: Mac)
    | Propagate(prio: u16, sa: Mac, otherPrio: u16, otherSa: Mac)
    | OtherOption
    | InTest(id: u16, sa: Mac, portRole: PortRole, closed: bool, transitions: u16)
    | InTopo(sa: Mac, id: u16, interval: u16)
    | InLink(up: bool, sa: Mac, portRole: PortRole, id: u16, interval: u16)
    | InLinkStatus(sa: Mac, portRole: PortRole, id: u16)
    | Unknown
  {
    predicate IsOption() { Nack? || Propagate? || OtherOption? }

    predicate IsRingFrame() { Test? || Topo? || Link? || IsOption() }

    predicate IsInFrame() { InTest? || InTopo? || InLink? || InLinkStatus? }

    /** The forwarding code reads the interconnection id of every interconnect frame
        through the InTest layout, whose first two bytes are the id. In the other
        interconnect frames those bytes are the start of the source address. */
    function ForwardingId(): u16 {
      match this
      case InTest(id, _, _, _, _) => id
      case InTopo(sa, _, _) => Be16(sa[0], sa[1])
      case InLink(_, sa, _, _, _) => Be16(sa[0], sa[1])
      case InLinkStatus(sa, _, _) => Be16(sa[0], sa[1])
      case _ => 0
    }
  }

  /** A libev timer. `due` is the instant of the next expiry. */
  datatype Timer = Idle | Armed(repeat: nat, due: nat) {
    /** `ev_timer_again` after setting `repeat`: a zero repeat stops the timer. */
    static function Again(now: nat, interval: nat): Timer {
      if interval == 0 then Idle else Armed(interval, now + interval)
    }

    /** libev advances a repeating timer before it runs the callback. */
    function Fired(now: nat): Timer {
      match this
      case Idle => Idle
      case Armed(repeat, due) => Armed(repeat, if due + repeat < now then now else due + repeat)
    }
  }

  datatype TimerId =
    | ClearFdbT | RingTestT | RingTopoT | RingLinkUpT | RingLinkDownT
    | InTestT | InTopoT | InLinkUpT | InLinkDownT | InLinkStatusT | CfmCcmT

  /** What a handler does to the outside world. A frame is composed or picked for relaying even
      when the port is down; `wire` says whether it leaves the host. */
  datatype Output =
    | Sent(to: PortRef, wire: bool, pdu: Pdu)
    | Relayed(to: PortRef, wire: bool, pdu: Pdu)
    | Flushed

  /** Everything the event loop can feed to an instance. */
  datatype Event =
    | LinkChange(port: PortRef, up: bool)
    | CfmChange(defect: bool)
    | Receive(port: PortRef, pdu: Pdu)
    | Expire(timer: TimerId)

  /** Fields that are written only while an instance is being added. Intervals are in microseconds. */
  datatype ConfigRaw = ConfigRaw(
    mac: Mac,
    prio: u16,
    inId: u16,
    mra: bool,
    react: bool,
    blocked: u16,
    inMode: InMode,
    topoInterval: nat,
    topoMax: nat,
    testShort: nat,
    testInterval: nat,
    testMax: nat,
    monMax: nat,
    linkInterval: nat,
    linkMax: nat,
    inTopoInterval: nat,
    inTopoMax: nat,
    inTestInterval: nat,
    inTestMax: nat,
    inLinkInterval: nat,
    inLinkMax: nat,
    inStatusInterval: nat,
    inStatusMax: nat,
    ccmPeriod: nat
  ) {
    /** Timer intervals and repetition counts are positive. */
    predicate Ok() {
      && topoInterval > 0 && topoMax > 0
      && testShort > 0 && testInterval > 0 && testMax > 0
      && linkInterval > 0 && linkMax > 0
      && inTopoInterval > 0 && inTopoMax > 0
      && inTestInterval > 0 && inTestMax > 0
      && inLinkInterval > 0 && inLinkMax > 0
      && inStatusInterval > 0 && inStatusMax > 0
      && ccmPeriod > 0
    }
  }

  const SAMPLE_CONFIG: ConfigRaw :=
    ConfigRaw([0, 0, 0, 0, 0, 0], 0x8000, 0, false, true, 1, RC,
              20000, 3, 30000, 50000, 5, 5, 100000, 4,
              20000, 3, 50000, 8, 20000, 4, 20000, 8, 10000000)

  type Config = c: ConfigRaw | c.Ok() witness SAMPLE_CONFIG
}
