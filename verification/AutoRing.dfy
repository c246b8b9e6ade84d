/** A ring with auto-managers: the election keeps a manager in it, and that manager absorbs. */
module AutoRing {
  import opened MrpTypes
  import opened MrpNode
  import opened Election
  import opened RingNet

  function Pdus(fs: set<Flight>): set<Pdu> { set f | f in fs :: f.pdu }

  /** The ring as a network of the election: what flies may be delivered. */
  function NetOf(s: RingSys): Net { Net(s.nodes, Pdus(s.flights)) }

  /** A frame from outside, which comes in through an interconnection port, is honest. */
  ghost predicate HonestMove(s: RingSys, mv: RingMove) {
    mv.e.Receive? && mv.e.port.OnInter? ==> Honest(Net(s.nodes, {mv.e.pdu}))
  }

  lemma HonestUnion(ns: seq<Node>, a: set<Pdu>, b: set<Pdu>)
    requires Honest(Net(ns, a)) && Honest(Net(ns, b))
    ensures Honest(Net(ns, a + b))
  {
    var n := Net(ns, a + b);
    forall f | f in n.air && f.Test? ensures exists i :: 0 <= i < |ns| && TestFrom(ns[i], f) {
      if f in a { assert f in Net(ns, a).air; } else { assert f in Net(ns, b).air; }
    }
    forall f | f in n.air && f.Nack?
      ensures exists i, j :: 0 <= i < |ns| && 0 <= j < |ns| && NackFromTo(ns[i], ns[j], f) && Beats(ns[i], ns[j])
    {
      if f in a { assert f in Net(ns, a).air; } else { assert f in Net(ns, b).air; }
    }
  }

  lemma HonestSubset(ns: seq<Node>, a: set<Pdu>, b: set<Pdu>)
    requires Honest(Net(ns, b)) && a <= b
    ensures Honest(Net(ns, a))
  {
    forall f | f in a ensures f in Net(ns, b).air {
    }
  }

  /** All that can be delivered in the next step. */
  function Air(s: RingSys, mv: RingMove): set<Pdu> {
    Pdus(s.flights) + if mv.e.Receive? then {mv.e.pdu} else {}
  }

  lemma AirHonest(s: RingSys, s': RingSys, mv: RingMove)
    requires RingStep(s, s', mv) && Honest(NetOf(s)) && HonestMove(s, mv)
    ensures Honest(Net(s.nodes, Air(s, mv)))
  {
    if mv.e.Receive? && mv.e.port.OnInter? {
      HonestUnion(s.nodes, Pdus(s.flights), {mv.e.pdu});
    } else if mv.e.Receive? {
      var cw :| Flight(mv.i, cw, mv.e.pdu, mv.hops) in s.flights;
      assert mv.e.pdu in Pdus(s.flights);
      assert Air(s, mv) == Pdus(s.flights);
    } else {
      assert Air(s, mv) == Pdus(s.flights);
    }
  }

  lemma LaunchesAreFrames(s: RingSys, mv: RingMove)
    requires s.Wired() && mv.i < |s.nodes|
    ensures Pdus(After(s, mv).flights) <= Air(s, mv) + Frames(s.nodes[mv.i].Out(mv.e))
  {
    var os := s.nodes[mv.i].Out(mv.e);
    forall p | p in Pdus(After(s, mv).flights) ensures p in Air(s, mv) + Frames(os) {
      var f :| f in After(s, mv).flights && f.pdu == p;
      if f !in s.flights {
        var o :| o in os && !o.Flushed? && o.wire && o.to.OnRing? && f == s.Launch(mv.i, mv.hops, o);
        assert o.pdu in Frames(os);
      }
    }
  }

  /** One step keeps the frames honest and the best auto-manager in its role. */
  lemma AutoStep(s: RingSys, s': RingSys, mv: RingMove, b: nat)
    requires RingStep(s, s', mv) && Honest(NetOf(s)) && HonestMove(s, mv)
    requires Best(s.nodes, b) && s.nodes[b].ring.role == MRM
    ensures Honest(NetOf(s')) && Best(s'.nodes, b) && s'.nodes[b].ring.role == MRM
  {
    var n := Net(s.nodes, Air(s, mv));
    var n' := Net(s'.nodes, Air(s, mv) + Frames(s.nodes[mv.i].Out(mv.e)));
    AirHonest(s, s', mv);
    assert NetStep(n, n', mv.i, mv.t, mv.e);
    HonestKept(n, n', mv.i, mv.t, mv.e);
    BestKept(n, n', b, mv.i, mv.t, mv.e);
    LaunchesAreFrames(s, mv);
    HonestSubset(s'.nodes, Pdus(s'.flights), n'.air);
  }

  lemma {:induction false} AutoRun(ss: seq<RingSys>, ms: seq<RingMove>, b: nat, k: nat)
    requires RingRun(ss, ms) && k < |ss| && Honest(NetOf(ss[0]))
    requires forall q :: 0 <= q < |ms| ==> HonestMove(ss[q], ms[q])
    requires Best(ss[0].nodes, b) && ss[0].nodes[b].ring.role == MRM
    ensures Honest(NetOf(ss[k])) && Best(ss[k].nodes, b) && ss[k].nodes[b].ring.role == MRM
  {
    if k > 0 {
      AutoRun(ss, ms, b, k - 1);
      assert RingStep(ss[k - 1], ss[k - 1 + 1], ms[k - 1]) && HonestMove(ss[k - 1], ms[k - 1]);
      AutoStep(ss[k - 1], ss[k], ms[k - 1], b);
    }
  }

  /** In every run of a ring with auto-managers, whatever its other nodes are, the best auto-manager is
      manager throughout and no ring frame comes further than from it. */
  lemma AutoManagersAbsorb(ss: seq<RingSys>, ms: seq<RingMove>, b: nat, k: nat)
    requires RingRun(ss, ms) && k < |ss| && Injected(ss[0]) && Honest(NetOf(ss[0]))
    requires forall q :: 0 <= q < |ms| ==> HonestMove(ss[q], ms[q])
    requires Winner(ss[0].nodes, b) && ss[0].nodes[b].ring.role == MRM
    ensures ss[k].Wired() && b < |ss[k].nodes| && ss[k].nodes[b].ring.role == MRM
    ensures Bounded(ss[k], b, false)
  {
    BestIffWinner(ss[0].nodes, b);
    forall q | 0 <= q < |ss| ensures b < |ss[q].nodes| && Absorbs(ss[q].nodes[b], false) {
      AutoRun(ss, ms, b, q);
    }
    Absorption(ss, ms, b, false, k);
  }
}
