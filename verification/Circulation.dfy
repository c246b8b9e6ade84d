/** Where absorption ends: rings in which a frame goes round for ever. Each lemma drops one condition
    of the absorption theorem, and frames of unknown type get an exact condition of their own. */
module Circulation {
  import opened MrpTypes
  import opened MrpNode
  import opened RingNet
  import opened Healing
  import opened FrameBuffer

  /** A node in condition `ok` hands frame `f` from ring port `x` to the other ring port and stays in
      that condition. */
  ghost predicate Conducts(ok: (Node, RingPort) -> bool, f: Pdu, t: nat) {
    forall n: Node, x: RingPort | ok(n, x) ::
      && Relayed(OnRing(x.Other()), true, f) in n.Out(Receive(OnRing(x), f))
      && ok(n.Step(t, Receive(OnRing(x), f)), x)
  }

  /** All nodes are in condition `ok` for one direction. */
  ghost predicate AllOk(s: RingSys, cw: bool, ok: (Node, RingPort) -> bool) {
    s.Wired() && forall i :: 0 <= i < |s.nodes| ==> ok(s.nodes[i], s.InPort(i, cw))
  }

  lemma Hop(s: RingSys, i: nat, cw: bool, f: Pdu, hops: nat, t: nat, ok: (Node, RingPort) -> bool)
    requires Conducts(ok, f, t) && AllOk(s, cw, ok) && i < |s.nodes| && Flight(i, cw, f, hops) in s.flights
    ensures var mv := Delivery(s, i, cw, f, hops, t);
            var s' := After(s, mv);
            && RingStep(s, s', mv) && AllOk(s', cw, ok) && |s'.nodes| == |s.nodes|
            && Flight(s.Neighbour(i, cw), cw, f, hops + 1) in s'.flights
  {
    DeliveryIsStep(s, i, cw, f, hops, t);
    var x := s.InPort(i, cw);
    assert ok(s.nodes[i], x);
    var o := Relayed(OnRing(x.Other()), true, f);
    assert s.Launch(i, hops, o) == Flight(s.Neighbour(i, cw), cw, f, hops + 1);
  }

  /** The run `ss` brings frame `f` to `h` hops. */
  ghost predicate Reaches(s: RingSys, cw: bool, f: Pdu, h: nat, ss: seq<RingSys>, ms: seq<RingMove>) {
    RingRun(ss, ms) && ss[0] == s && exists i :: Flight(i, cw, f, h) in ss[|ms|].flights
  }

  lemma ReachesOneMore(s: RingSys, s': RingSys, cw: bool, f: Pdu, h: nat, mv: RingMove,
                       ss: seq<RingSys>, ms: seq<RingMove>)
    requires RingStep(s, s', mv) && Reaches(s', cw, f, h, ss, ms)
    ensures Reaches(s, cw, f, h, [s] + ss, [mv] + ms)
  {
    Prepend(s, mv, ss, ms);
    assert ([s] + ss)[|[mv] + ms|] == ss[|ms|];
  }

  /** In a ring of nodes that all conduct a frame, it reaches any number of hops. */
  lemma {:induction false} Circulates(s: RingSys, i: nat, cw: bool, f: Pdu, hops: nat, t: nat, h: nat,
                                      ok: (Node, RingPort) -> bool)
    returns (ss: seq<RingSys>, ms: seq<RingMove>)
    requires Conducts(ok, f, t) && AllOk(s, cw, ok)
    requires i < |s.nodes| && Flight(i, cw, f, hops) in s.flights && hops <= h
    ensures Reaches(s, cw, f, h, ss, ms)
    decreases h - hops
  {
    if hops == h {
      ss, ms := [s], [];
      assert Flight(i, cw, f, h) in ss[|ms|].flights;
    } else {
      Hop(s, i, cw, f, hops, t, ok);
      var mv := Delivery(s, i, cw, f, hops, t);
      var rest, moves := Circulates(After(s, mv), s.Neighbour(i, cw), cw, f, hops + 1, t, h, ok);
      ReachesOneMore(s, After(s, mv), cw, f, h, mv, rest, moves);
      ss, ms := [s] + rest, [mv] + moves;
    }
  }

  // ---- Frames of unknown type

  /** A frame of unknown type enters by a forwarding port and can leave by the other. */
  predicate LetsUnknownBy(n: Node, x: RingPort) {
    n.ring.Port(x).state == Forwarding && n.ring.Port(x.Other()).up
  }

  lemma UnknownPasses(n: Node, x: RingPort, t: nat)
    requires LetsUnknownBy(n, x)
    ensures Relayed(OnRing(x.Other()), true, Unknown) in n.Out(Receive(OnRing(x), Unknown))
    ensures n.Step(t, Receive(OnRing(x), Unknown)) == n
  {
    assert n.Passes(Receive(OnRing(x), Unknown));
    assert Relayed(OnRing(x.Other()), true, Unknown) in n.ForwardOut(OnRing(x), Unknown);
  }

  /** A frame of unknown type goes round for ever, whatever roles the nodes have: in a ring with a
      manager in CHK_RO both ways, and also past the blocked port of a manager in CHK_RC if it travels so
      that it enters by the primary port. */
  lemma UnknownCirculates(s: RingSys, i: nat, cw: bool, hops: nat, t: nat, h: nat)
    returns (ss: seq<RingSys>, ms: seq<RingMove>)
    requires s.Wired() && i < |s.nodes| && Flight(i, cw, Unknown, hops) in s.flights && hops <= h
    requires forall j :: 0 <= j < |s.nodes| ==> LetsUnknownBy(s.nodes[j], s.InPort(j, cw))
    ensures Reaches(s, cw, Unknown, h, ss, ms)
  {
    forall n: Node, x: RingPort | LetsUnknownBy(n, x)
      ensures Relayed(OnRing(x.Other()), true, Unknown) in n.Out(Receive(OnRing(x), Unknown))
      ensures LetsUnknownBy(n.Step(t, Receive(OnRing(x), Unknown)), x)
    {
      UnknownPasses(n, x, t);
    }
    ss, ms := Circulates(s, i, cw, Unknown, hops, t, h, LetsUnknownBy);
  }

  /** The condition holds at a manager that has closed its ring and at a client with both ring links. */
  lemma ClosedRingLetsUnknownBy(n: Node, x: RingPort)
    requires Managing(n) || (Relaying(n) && n.ring.mrc == PtIdle)
    requires Managing(n) ==> n.ring.mrm == ChkRo || (n.ring.mrm == ChkRc && x == n.ring.primary)
    ensures LetsUnknownBy(n, x)
  {
  }

  /** What leaves a node for a frame of unknown type entered by the other ring port, or from outside the
      ring. */
  lemma UnknownRelayed(n: Node, e: Event, o: Output)
    requires o in n.Out(e) && !o.Flushed? && o.pdu.Unknown? && o.wire && o.to.OnRing?
    ensures o.Relayed? && e.Receive? && e.pdu.Unknown?
    ensures e.port.OnRing? ==> o.to == OnRing(e.port.x.Other()) && LetsUnknownBy(n, e.port.x)
  {
    SentComposable(n, e);
    RelayIsForwarding(n, e, o);
    NeverBack(n, e.port, e.pdu, o);
    assert n.Passes(e);
    assert o.wire == n.IsUp(o.to);
  }

  /** No frame of unknown type that travels this way has come further than from node `m`. */
  ghost predicate UnknownBounded(s: RingSys, m: nat, cw: bool) {
    && s.Wired() && m < |s.nodes|
    && forall f :: f in s.flights && f.pdu.Unknown? && f.cw == cw ==>
         f.to < |s.nodes| && 1 <= f.hops <= Distance(|s.nodes|, m, f.to, cw) <= |s.nodes|
  }

  lemma UnknownBoundedKept(s: RingSys, s': RingSys, m: nat, cw: bool, mv: RingMove)
    requires UnknownBounded(s, m, cw) && RingStep(s, s', mv)
    requires mv.i == m ==> !LetsUnknownBy(s.nodes[m], s.InPort(m, cw))
    ensures UnknownBounded(s', m, cw)
  {
    var n := |s.nodes|;
    forall f | f in s'.flights && f !in s.flights && f.pdu.Unknown? && f.cw == cw
      ensures f.to < n && 1 <= f.hops <= Distance(n, m, f.to, cw) <= n
    {
      var o :| o in s.nodes[mv.i].Out(mv.e) && !o.Flushed? && o.wire && o.to.OnRing? && f == s.Launch(mv.i, mv.hops, o);
      UnknownRelayed(s.nodes[mv.i], mv.e, o);
    }
  }

  /** Whenever node `m` acts, it lets no frame of unknown type by in this direction. */
  ghost predicate Stops(ss: seq<RingSys>, ms: seq<RingMove>, m: nat, cw: bool, k: nat) {
    forall q :: 0 <= q < k && q < |ms| && q < |ss| && ms[q].i == m ==>
                  ss[q].Wired() && m < |ss[q].nodes| && !LetsUnknownBy(ss[q].nodes[m], ss[q].InPort(m, cw))
  }

  /** The other half: one node that does not let frames of unknown type by, whenever it acts, bounds the
      journey of all of them by their distance from it, in every run and whatever the other nodes do. */
  lemma {:induction false} UnknownAbsorbed(ss: seq<RingSys>, ms: seq<RingMove>, m: nat, cw: bool, k: nat)
    requires RingRun(ss, ms) && k < |ss| && m < |ss[0].nodes| && Injected(ss[0])
    requires Stops(ss, ms, m, cw, k)
    ensures UnknownBounded(ss[k], m, cw) && |ss[k].nodes| == |ss[0].nodes|
  {
    if k > 0 {
      UnknownAbsorbed(ss, ms, m, cw, k - 1);
      assert RingStep(ss[k - 1], ss[k - 1 + 1], ms[k - 1]);
      UnknownBoundedKept(ss[k - 1], ss[k], m, cw, ms[k - 1]);
    }
  }

  // ---- Interconnect frames while the manager is in CHK_RO

  /** Both ring ports forward and are up, and there is no interconnection role. */
  predicate Open(n: Node, x: RingPort) {
    && n.inter.role == InDisabled
    && n.ring.p == PortRec(Forwarding, true) && n.ring.s == PortRec(Forwarding, true)
  }

  lemma InFramePasses(n: Node, x: RingPort, f: Pdu, t: nat)
    requires f.IsInFrame() && Open(n, x)
    ensures Relayed(OnRing(x.Other()), true, f) in n.Out(Receive(OnRing(x), f))
    ensures Open(n.Step(t, Receive(OnRing(x), f)), x)
  {
    assert n.Passes(Receive(OnRing(x), f));
    assert Relayed(OnRing(x.Other()), true, f) in n.ForwardOut(OnRing(x), f);
  }

  /** With the manager in CHK_RO every interconnect frame goes round for ever in a closed ring without
      interconnection roles, even one that makes the manager announce a topology change. */
  lemma InFrameCirculates(s: RingSys, m: nat, i: nat, cw: bool, f: Pdu, hops: nat, t: nat, h: nat)
    returns (ss: seq<RingSys>, ms: seq<RingMove>)
    requires Closed(s, m) && s.nodes[m].ring.mrm == ChkRo && f.IsInFrame()
    requires forall j :: 0 <= j < |s.nodes| ==> s.nodes[j].inter.role == InDisabled
    requires forall j :: 0 <= j < |s.nodes| && j != m ==> s.nodes[j].ring.mrc == PtIdle
    requires i < |s.nodes| && Flight(i, cw, f, hops) in s.flights && hops <= h
    ensures Reaches(s, cw, f, h, ss, ms)
  {
    forall n: Node, x: RingPort | Open(n, x)
      ensures Relayed(OnRing(x.Other()), true, f) in n.Out(Receive(OnRing(x), f))
      ensures Open(n.Step(t, Receive(OnRing(x), f)), x)
    {
      InFramePasses(n, x, f, t);
    }
    ss, ms := Circulates(s, i, cw, f, hops, t, h, Open);
  }

  // ---- Ring frames without a manager

  /** In a ring of clients alone a test frame goes round for ever. */
  lemma TestCirculates(s: RingSys, i: nat, cw: bool, f: Pdu, hops: nat, t: nat, h: nat)
    returns (ss: seq<RingSys>, ms: seq<RingMove>)
    requires s.Wired() && forall j :: 0 <= j < |s.nodes| ==> Relaying(s.nodes[j])
    requires f.Test? && i < |s.nodes| && Flight(i, cw, f, hops) in s.flights && hops <= h
    ensures Reaches(s, cw, f, h, ss, ms)
  {
    var ok := (n: Node, x: RingPort) => Relaying(n);
    forall n: Node, x: RingPort | ok(n, x)
      ensures Relayed(OnRing(x.Other()), true, f) in n.Out(Receive(OnRing(x), f))
      ensures ok(n.Step(t, Receive(OnRing(x), f)), x)
    {
      ClientPassesTest(n, t, x, f);
    }
    ss, ms := Circulates(s, i, cw, f, hops, t, h, ok);
  }
}
