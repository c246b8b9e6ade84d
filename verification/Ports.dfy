/** The ports of an instance as the program refers to them: records on the heap, and two references
    that the ring machines redirect when the primary port changes. */
module MrpPorts {
  import opened MrpTypes
  import opened MrpRing

  /** `struct mrp_port`. */
  class Port {
    const role: PortRole
    var state: PortState
    var up: bool

    constructor (role: PortRole)
      ensures this.role == role && Rec() == PortRec(Disabled, false)
    {
      this.role := role;
      state, up := Disabled, false;
    }

    function Rec(): PortRec
      reads this
    {
      PortRec(state, up)
    }

    function Ref(): PortRef {
      match role
      case Primary => OnRing(PortA)
      case Secondary => OnRing(PortB)
      case Interconnect => OnInter
    }

    /** A frame composed for this port; it leaves the host if the port is up. */
    function Frame(pdu: Pdu): Output
      reads this
    {
      Sent(Ref(), up, pdu)
    }

    function Relay(pdu: Pdu): Output
      reads this
    {
      Relayed(Ref(), up, pdu)
    }
  }

  /** What the value model keeps of the two references: which port is primary, and both contents. */
  datatype PortView = PortView(primary: RingPort, p: PortRec, s: PortRec) {
    function In(r: Ring): Ring { r.(primary := primary, p := p, s := s) }

    function Swap(): PortView { PortView(primary.Other(), s, p) }
  }

  /** Exchanging the references is the swap of the value model. */
  lemma SwapIn(v: PortView, r: Ring)
    ensures v.Swap().In(r) == v.In(r).Swap()
  {
  }

  /** The members `p_port` and `s_port` of `struct mrp`. */
  class RingPorts {
    ghost const a: Port
    ghost const b: Port
    var pPort: Port
    var sPort: Port

    /** The references are distinct and are the two ports the instance was added with. */
    ghost predicate Linked()
      reads this
    {
      && a != b && a.role == Primary && b.role == Secondary
      && ((pPort == a && sPort == b) || (pPort == b && sPort == a))
    }

    ghost function View(): PortView
      requires Linked()
      reads this, a, b
    {
      PortView(if pPort == a then PortA else PortB, pPort.Rec(), sPort.Rec())
    }

    constructor ()
      ensures Linked() && fresh(a) && fresh(b)
      ensures View() == PortView(PortA, PortRec(Disabled, false), PortRec(Disabled, false))
    {
      var p := new Port(Primary);
      var s := new Port(Secondary);
      a, b := p, s;
      pPort, sPort := p, s;
    }

    /** `p`, which is not the primary port, came up first and becomes it. */
    method BecomePrimary(p: Port)
      requires Linked() && p in {a, b} && p != pPort
      modifies this
      ensures Linked() && pPort == p && View() == old(View()).Swap()
    {
      sPort := pPort;
      pPort := p;
    }

    /** `p`, which is the primary port, went down and the other port takes over. */
    method StepDown(p: Port)
      requires Linked() && p == pPort
      modifies this
      ensures Linked() && sPort == p && View() == old(View()).Swap()
    {
      pPort := sPort;
      sPort := p;
    }

    /** Setting the state of one port leaves the other alone, through whichever name it is reached. */
    method SetState(p: Port, state: PortState)
      requires Linked() && p in {a, b}
      modifies p`state
      ensures Linked()
      ensures p == pPort ==> View() == old(View()).(p := old(View()).p.(state := state))
      ensures p == sPort ==> View() == old(View()).(s := old(View()).s.(state := state))
    {
      p.state := state;
    }
  }
}
