/** A ring of any number of instances, joined port to port. */
module RingNet {
  import opened MrpTypes
  import opened MrpNode
  import opened MrpSetup
  import opened MrmInvariants
  import opened Election

  /** A frame on its way to node `to`, travelling clockwise or not. `hops` counts the ring ports it
      has left since it was composed or entered the ring through an interconnection port. */
  datatype Flight = Flight(to: nat, cw: bool, pdu: Pdu, hops: nat)

  /** `right[i]` is the port by which node `i` is joined to node `i + 1`. Flights stay in the set, so a
      frame may be delivered late, repeatedly or never. */
  datatype RingSys = RingSys(nodes: seq<Node>, right: seq<RingPort>, flights: set<Flight>) {
    predicate Wired() { |nodes| == |right| > 0 }

    /** The port by which a frame that travels clockwise, or not, enters node `i`. */
    function InPort(i: nat, cw: bool): RingPort
      requires i < |right|
    {
      if cw then right[i].Other() else right[i]
    }

    function Neighbour(i: nat, cw: bool): nat
      requires i < |right|
    {
      if cw then if i + 1 == |right| then 0 else i + 1
      else if i == 0 then |right| - 1 else i - 1
    }

    /** The flight that output `o` of node `i` becomes; `hops` is the count of the frame being relayed. */
    function Launch(i: nat, hops: nat, o: Output): Flight
      requires i < |right| && !o.Flushed? && o.to.OnRing?
    {
      var cw := o.to.x == right[i];
      Flight(Neighbour(i, cw), cw, o.pdu, if o.Relayed? then hops + 1 else 1)
    }

    function Launches(i: nat, hops: nat, os: seq<Output>): set<Flight>
      requires i < |right|
    {
      set o | o in os && !o.Flushed? && o.wire && o.to.OnRing? :: Launch(i, hops, o)
    }
  }

  /** One step of the ring: node `i` takes event `e` at instant `t`. `hops` belongs to the frame that
      is delivered; frames from outside come in through interconnection ports with a count of 0. */
  datatype RingMove = RingMove(i: nat, t: nat, e: Event, hops: nat)

  ghost predicate RingStep(s: RingSys, s': RingSys, m: RingMove) {
    && s.Wired() && m.i < |s.nodes|
    && (m.e.Receive? && m.e.port.OnRing? ==>
          exists cw :: Flight(m.i, cw, m.e.pdu, m.hops) in s.flights && m.e.port == OnRing(s.InPort(m.i, cw)))
    && (!(m.e.Receive? && m.e.port.OnRing?) ==> m.hops == 0)
    && s' == After(s, m)
  }

  function After(s: RingSys, m: RingMove): RingSys
    requires s.Wired() && m.i < |s.nodes|
  {
    RingSys(s.nodes[m.i := s.nodes[m.i].Step(m.t, m.e)], s.right,
            s.flights + s.Launches(m.i, m.hops, s.nodes[m.i].Out(m.e)))
  }

  ghost predicate RingRun(ss: seq<RingSys>, ms: seq<RingMove>) {
    && |ss| == |ms| + 1 && ss[0].Wired()
    && forall k :: 0 <= k < |ms| ==> RingStep(ss[k], ss[k + 1], ms[k])
  }

  // ---- One node passing a frame on

  /** Only a received frame is relayed, unchanged. */
  lemma RelayIsForwarding(n: Node, e: Event, o: Output)
    requires o in n.Out(e) && o.Relayed?
    ensures e.Receive? && o.pdu == e.pdu && o in n.ForwardOut(e.port, e.pdu)
  {
    OutAttributed(n, e);
    assert Attributed(n, e, o);
    NoRelayInProcess(n, e.pdu);
  }

  lemma NoRelayInProcess(n: Node, f: Pdu)
    ensures forall o :: o in n.ProcessOut(f) ==> !o.Relayed?
  {
  }

  /** A frame is never relayed out of the port it came in on. */
  lemma NeverBack(n: Node, at: PortRef, f: Pdu, o: Output)
    requires o in n.ForwardOut(at, f)
    ensures o.Relayed? && o.to != at && o.pdu == f
  {
  }

  /** Ring frames stay on the ring and a manager absorbs them. */
  lemma RingFrameRelay(n: Node, at: PortRef, f: Pdu, o: Output)
    requires f.IsRingFrame() && o in n.ForwardOut(at, f)
    ensures at.OnRing? && o.to == OnRing(at.x.Other()) && n.ring.role == MRC
  {
  }

  /** A manager of which one ring port does not forward passes no interconnect frame between its
      ring ports, whatever its interconnection role. */
  lemma InFrameRelay(n: Node, x: RingPort, f: Pdu, o: Output)
    requires n.ring.role == MRM && Cut(n) && f.IsInFrame()
    requires o in n.ForwardOut(OnRing(x), f)
    ensures o.to == OnInter
  {
  }

  predicate Cut(n: Node) { n.ring.p.state != Forwarding || n.ring.s.state != Forwarding }

  // ---- Absorption: the manager bounds the journey of every frame

  /** The number of links from node `m` to node `to` in the direction of travel, a full turn if they are the same. */
  function Distance(n: nat, m: nat, to: nat, cw: bool): int {
    if cw then if to > m then to - m else to + n - m
    else if to < m then m - to else m + n - to
  }

  /** The frames the bound is claimed for: ring frames, and interconnect frames if `inToo`. */
  predicate Claimed(f: Pdu, inToo: bool) { f.IsRingFrame() || (inToo && f.IsInFrame()) }

  /** No claimed frame has come further than from the manager at `m`. */
  ghost predicate Bounded(s: RingSys, m: nat, inToo: bool) {
    && s.Wired() && m < |s.nodes|
    && forall f :: f in s.flights && Claimed(f.pdu, inToo) ==>
         f.to < |s.nodes| && 1 <= f.hops <= Distance(|s.nodes|, m, f.to, f.cw) <= |s.nodes|
  }

  /** A node at which claimed frames end. */
  predicate Absorbs(n: Node, inToo: bool) { n.ring.role == MRM && (inToo ==> Cut(n)) }

  /** What a node relays around the ring it received, and a manager relays no claimed frame from one
      ring port to the other. */
  lemma RelayedOnward(n: Node, manager: bool, inToo: bool, e: Event, o: Output)
    requires manager ==> Absorbs(n, inToo)
    requires o in n.Out(e) && o.Relayed? && o.to.OnRing? && Claimed(o.pdu, inToo)
    ensures e.Receive? && e.pdu == o.pdu
    ensures e.port.OnRing? ==> !manager && o.to == OnRing(e.port.x.Other())
  {
    RelayIsForwarding(n, e, o);
    NeverBack(n, e.port, e.pdu, o);
    if o.pdu.IsRingFrame() {
      RingFrameRelay(n, e.port, e.pdu, o);
    } else if e.port.OnRing? && manager {
      InFrameRelay(n, e.port.x, e.pdu, o);
    }
  }

  lemma BoundedKept(s: RingSys, s': RingSys, m: nat, inToo: bool, mv: RingMove)
    requires Bounded(s, m, inToo) && RingStep(s, s', mv)
    requires mv.i == m ==> Absorbs(s.nodes[m], inToo)
    ensures Bounded(s', m, inToo)
  {
    var n := |s.nodes|;
    forall f | f in s'.flights && f !in s.flights && Claimed(f.pdu, inToo)
      ensures f.to < n && 1 <= f.hops <= Distance(n, m, f.to, f.cw) <= n
    {
      var o :| o in s.nodes[mv.i].Out(mv.e) && !o.Flushed? && o.wire && o.to.OnRing? && f == s.Launch(mv.i, mv.hops, o);
      if o.Relayed? {
        RelayedOnward(s.nodes[mv.i], mv.i == m, inToo, mv.e, o);
      }
    }
  }

  /** Frames that were just put on some link of the ring, in some direction. */
  predicate Injected(s: RingSys) {
    s.Wired() && forall f :: f in s.flights ==> f.to < |s.nodes| && f.hops == 1
  }

  /** Node `m` absorbs whenever it acts. */
  ghost predicate Guarded(ss: seq<RingSys>, ms: seq<RingMove>, m: nat, inToo: bool, k: nat) {
    forall q :: 0 <= q < k && q < |ms| && q < |ss| && ms[q].i == m ==>
                  m < |ss[q].nodes| && Absorbs(ss[q].nodes[m], inToo)
  }

  /** In every run of a ring, whatever frames it starts with and whatever the other nodes are, a ring
      frame leaves at most as many ring ports as there are nodes, if one node is a manager whenever it
      acts; and so does an interconnect frame, if that manager has a ring port that does not forward. */
  lemma {:induction false} Absorption(ss: seq<RingSys>, ms: seq<RingMove>, m: nat, inToo: bool, k: nat)
    requires RingRun(ss, ms) && k < |ss| && m < |ss[0].nodes| && Injected(ss[0])
    requires Guarded(ss, ms, m, inToo, k)
    ensures Bounded(ss[k], m, inToo) && |ss[k].nodes| == |ss[0].nodes|
  {
    if k > 0 {
      Absorption(ss, ms, m, inToo, k - 1);
      assert RingStep(ss[k - 1], ss[k - 1 + 1], ms[k - 1]);
      BoundedKept(ss[k - 1], ss[k], m, inToo, ms[k - 1]);
    }
  }

  lemma ManagerStays(s: RingSys, s': RingSys, m: nat, mv: RingMove)
    requires RingStep(s, s', mv) && m < |s.nodes| && FixedMrm(s.nodes[m].cfg, s.nodes[m].ring, s.nodes[m].inter)
    ensures s'.Wired() && |s'.nodes| == |s.nodes|
    ensures FixedMrm(s'.nodes[m].cfg, s'.nodes[m].ring, s'.nodes[m].inter)
  {
    if mv.i == m {
      var n := s.nodes[m];
      MrmInvKept(n.cfg, n.ring, n.inter.role, mv.t, mv.e, n.Passes(mv.e));
      RolesStay(n, mv.t, mv.e);
    }
  }

  /** The manager's whole-run invariant, inside the ring. */
  lemma {:induction false} ManagerRun(ss: seq<RingSys>, ms: seq<RingMove>, m: nat, k: nat)
    requires RingRun(ss, ms) && k < |ss| && m < |ss[0].nodes|
    requires FixedMrm(ss[0].nodes[m].cfg, ss[0].nodes[m].ring, ss[0].nodes[m].inter)
    ensures ss[k].Wired() && |ss[k].nodes| == |ss[0].nodes|
    ensures FixedMrm(ss[k].nodes[m].cfg, ss[k].nodes[m].ring, ss[k].nodes[m].inter)
  {
    if k > 0 {
      ManagerRun(ss, ms, m, k - 1);
      assert RingStep(ss[k - 1], ss[k - 1 + 1], ms[k - 1]);
      ManagerStays(ss[k - 1], ss[k], m, ms[k - 1]);
    }
  }

  predicate NotOpen(s: RingSys, m: nat) { m < |s.nodes| && s.nodes[m].ring.mrm != ChkRo }

  /** With a fixed-role manager the bound holds for ring frames in every run, and for interconnect
      frames in every run in which the manager is not in CHK_RO. */
  lemma FixedManagerAbsorbs(ss: seq<RingSys>, ms: seq<RingMove>, m: nat, inToo: bool, k: nat)
    requires RingRun(ss, ms) && k < |ss| && m < |ss[0].nodes| && Injected(ss[0])
    requires FixedMrm(ss[0].nodes[m].cfg, ss[0].nodes[m].ring, ss[0].nodes[m].inter)
    requires inToo ==> forall q :: 0 <= q < k ==> NotOpen(ss[q], m)
    ensures Bounded(ss[k], m, inToo) && |ss[k].nodes| == |ss[0].nodes|
  {
    forall q | 0 <= q < k ensures m < |ss[q].nodes| && Absorbs(ss[q].nodes[m], inToo) {
      ManagerRun(ss, ms, m, q);
      assert inToo ==> NotOpen(ss[q], m);
    }
    Absorption(ss, ms, m, inToo, k);
  }

  /** Loop safety: in every state of every run all ring ports of all nodes forward at once only
      while the manager is in CHK_RO. */
  lemma LoopSafety(ss: seq<RingSys>, ms: seq<RingMove>, m: nat, k: nat)
    requires RingRun(ss, ms) && k < |ss| && m < |ss[0].nodes|
    requires FixedMrm(ss[0].nodes[m].cfg, ss[0].nodes[m].ring, ss[0].nodes[m].inter)
    requires forall i, x :: 0 <= i < |ss[k].nodes| ==> ss[k].nodes[i].ring.Port(x).state == Forwarding
    ensures m < |ss[k].nodes| && ss[k].nodes[m].ring.mrm == ChkRo
  {
    ManagerRun(ss, ms, m, k);
    var r := ss[k].nodes[m].ring;
    assert r.Port(r.primary.Other()).state == Forwarding && r.Port(r.primary).state == Forwarding;
  }
}
