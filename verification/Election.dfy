/** Election of the manager by MRP_Test and TestMgrNAck frames, over a network that may lose,
    duplicate and reorder them. */
module Election {
  import opened MrpTypes
  import opened EtherAddr
  import opened MrpRing
  import opened MrpNode

  /** Any number of instances and all frames that were ever composed. Delivering frames from this
      set in any order, any number of times or never covers loss, duplication and reordering. */
  datatype Net = Net(nodes: seq<Node>, air: set<Pdu>)

  function Frames(os: seq<Output>): set<Pdu> {
    set o | o in os && !o.Flushed? :: o.pdu
  }

  /** Node `i` takes event `e` at instant `t`; it can only receive what some node has sent. */
  predicate NetStep(s: Net, s': Net, i: nat, t: nat, e: Event) {
    && i < |s.nodes|
    && (e.Receive? ==> e.pdu in s.air)
    && s' == Net(s.nodes[i := s.nodes[i].Step(t, e)], s.air + Frames(s.nodes[i].Out(e)))
  }

  predicate DistinctMacs(ns: seq<Node>) {
    forall i, j :: 0 <= i < j < |ns| ==> ns[i].cfg.mac != ns[j].cfg.mac
  }

  /** The election order on the identity that a node puts into its frames. */
  predicate Beats(n: Node, m: Node) {
    Better(n.cfg.prio, n.cfg.mac, m.cfg.prio, m.cfg.mac)
  }

  predicate TestFrom(n: Node, f: Pdu) {
    f.Test? && f.prio == n.cfg.prio && f.sa == n.cfg.mac
  }

  /** Only an auto-manager denies. */
  predicate NackFromTo(n: Node, m: Node, f: Pdu) {
    f.Nack? && n.cfg.mra && f.prio == n.cfg.prio && f.sa == n.cfg.mac && f.otherSa == m.cfg.mac
  }

  /** Every test frame in flight names its sender, and every denial in flight was sent by a node
      that beats the one it names. */
  ghost predicate Honest(s: Net) {
    && DistinctMacs(s.nodes)
    && (forall f :: f in s.air && f.Test? ==> exists i :: 0 <= i < |s.nodes| && TestFrom(s.nodes[i], f))
    && (forall f :: f in s.air && f.Nack? ==>
          exists i, j :: 0 <= i < |s.nodes| && 0 <= j < |s.nodes| &&
                         NackFromTo(s.nodes[i], s.nodes[j], f) && Beats(s.nodes[i], s.nodes[j]))
  }

  /** Where the test frames and denials among the outputs of one node come from. */
  predicate Attributed(n: Node, e: Event, o: Output) {
    && (o.Relayed? ==> e.Receive? && o.pdu == e.pdu)
    && (o.Sent? && o.pdu.Test? ==> TestFrom(n, o.pdu))
    && (o.Sent? && o.pdu.Nack? ==>
          && n.cfg.mra && e.Receive? && e.pdu.Test? && !MacEqual(e.pdu.sa, n.cfg.mac)
          && o.pdu.prio == n.cfg.prio && o.pdu.sa == n.cfg.mac && o.pdu.otherSa == e.pdu.sa
          && !Better(e.pdu.prio, e.pdu.sa, n.cfg.prio, n.cfg.mac))
  }

  predicate AllAttributed(n: Node, e: Event, os: seq<Output>) {
    forall o :: o in os ==> Attributed(n, e, o)
  }

  lemma LinkAttributed(n: Node, e: Event, x: RingPort, up: bool)
    ensures AllAttributed(n, e, n.RingLinkOut(x, up))
  {
  }

  lemma InLinkAttributed(n: Node, e: Event, up: bool)
    ensures AllAttributed(n, e, n.InPortLinkOut(up))
  {
  }

  lemma ExpireAttributed(n: Node, e: Event, t: TimerId)
    ensures AllAttributed(n, e, n.ExpireOut(t))
  {
  }

  lemma TestAttributed(n: Node, at: PortRef, f: Pdu)
    requires f.Test? || f.Nack?
    ensures AllAttributed(n, Receive(at, f), n.ProcessOut(f))
  {
  }

  lemma InAttributed(n: Node, at: PortRef, f: Pdu)
    requires !f.IsRingFrame()
    ensures AllAttributed(n, Receive(at, f), n.ProcessOut(f))
  {
  }

  lemma OtherAttributed(n: Node, at: PortRef, f: Pdu)
    requires !f.Test? && !f.Nack?
    ensures AllAttributed(n, Receive(at, f), n.ProcessOut(f))
  {
    if !f.IsRingFrame() {
      InAttributed(n, at, f);
    }
  }

  lemma OutAttributed(n: Node, e: Event)
    ensures AllAttributed(n, e, n.Out(e))
  {
    match e {
      case LinkChange(OnRing(x), up) => LinkAttributed(n, e, x, up);
      case LinkChange(OnInter, up) => InLinkAttributed(n, e, up);
      case CfmChange(defect) => InLinkAttributed(n, e, !defect);
      case Receive(at, f) => if f.Test? || f.Nack? { TestAttributed(n, at, f); } else { OtherAttributed(n, at, f); }
      case Expire(t) => ExpireAttributed(n, e, t);
    }
  }

  lemma LinksKeepManager(c: Config, r: Ring, t: nat, x: RingPort, up: bool)
    requires r.role == MRM
    ensures r.LinkChange(c, t, x, up).role == MRM
  {
  }

  lemma ExpiryKeepsManager(c: Config, r: Ring, t: nat, id: TimerId)
    requires r.role == MRM
    ensures r.Expire(c, t, id).role == MRM
  {
  }

  lemma FramesKeepManager(c: Config, r: Ring, i: InRole, t: nat, f: Pdu)
    requires r.role == MRM && r.Recv(c, t, i, f).role == MRC
    ensures f.Nack? && MacEqual(f.otherSa, c.mac)
  {
  }

  /** Only a denial that names it makes a manager a client. */
  lemma OnlyNackDemotes(n: Node, t: nat, e: Event)
    requires n.ring.role == MRM && n.Step(t, e).ring.role == MRC
    ensures e.Receive? && e.pdu.Nack? && e.pdu.otherSa == n.cfg.mac
  {
    match e {
      case LinkChange(OnRing(x), up) => LinksKeepManager(n.cfg, n.ring, t, x, up);
      case Receive(_, f) =>
        FramesKeepManager(n.cfg, n.ring, n.inter.role, t, f);
        MacEqualIsEquality(f.otherSa, n.cfg.mac);
      case Expire(id) => ExpiryKeepsManager(n.cfg, n.ring, t, id);
      case _ =>
    }
  }

  /** When event `e` makes manager `n` a client. Auto-manager support is one reason to obey a denial;
      the role MIM is another, because the option frames share the InTest case. */
  predicate Obeys(n: Node, e: Event) {
    && n.Passes(e) && e.pdu.Nack? && (n.cfg.mra || n.inter.role == MIM)
    && e.pdu.sa != n.cfg.mac && e.pdu.otherSa == n.cfg.mac && n.ring.mrm != MrmAcStat1
  }

  lemma NackDemotesIff(c: Config, r: Ring, i: InRole, t: nat, f: Pdu)
    requires r.role == MRM && f.Nack?
    ensures r.Recv(c, t, i, f).role == MRC <==>
            (c.mra || i == MIM) && f.sa != c.mac && f.otherSa == c.mac && r.mrm != MrmAcStat1
  {
    MacEqualIsEquality(f.sa, c.mac);
    MacEqualIsEquality(f.otherSa, c.mac);
  }

  lemma DemotedIff(n: Node, t: nat, e: Event)
    requires n.ring.role == MRM
    ensures n.Step(t, e).ring.role == MRC <==> Obeys(n, e)
  {
    if n.Step(t, e).ring.role == MRC {
      OnlyNackDemotes(n, t, e);
    }
    if e.Receive? && e.pdu.Nack? {
      NackDemotesIff(n.cfg, n.ring, n.inter.role, t, e.pdu);
    }
  }

  /** The order is strict and total on distinct addresses. */
  lemma BeatsIsStrictOrder(a: Node, b: Node, c: Node)
    ensures !Beats(a, a)
    ensures Beats(a, b) && Beats(b, c) ==> Beats(a, c)
    ensures a.cfg.mac != b.cfg.mac ==> Beats(a, b) || Beats(b, a)
  {
    if ToU64(a.cfg.mac) == ToU64(b.cfg.mac) { SpelledInjective(a.cfg.mac, b.cfg.mac); }
  }

  // ---- Runs of the whole network

  /** Instances keep the identity they were added with. */
  predicate SameIdentity(ns: seq<Node>, ns': seq<Node>) {
    |ns| == |ns'| && forall i :: 0 <= i < |ns| ==> ns'[i].cfg == ns[i].cfg
  }

  lemma StepIdentity(s: Net, s': Net, i: nat, t: nat, e: Event)
    requires NetStep(s, s', i, t, e)
    ensures SameIdentity(s.nodes, s'.nodes) && s.air <= s'.air
  {
  }

  /** A new frame is attributed to the stepping node or was in flight before. */
  lemma NewFrame(s: Net, s': Net, i: nat, t: nat, e: Event, f: Pdu)
    requires NetStep(s, s', i, t, e) && f in s'.air && f !in s.air
    ensures Attributed(s.nodes[i], e, Sent(OnInter, true, f))
  {
    OutAttributed(s.nodes[i], e);
    var o :| o in s.nodes[i].Out(e) && !o.Flushed? && o.pdu == f;
    assert Attributed(s.nodes[i], e, o);
  }

  lemma HonestAfter(s: Net, ns: seq<Node>, f: Pdu)
    requires Honest(s) && f in s.air && SameIdentity(s.nodes, ns)
    ensures f.Test? ==> exists i :: 0 <= i < |ns| && TestFrom(ns[i], f)
    ensures f.Nack? ==> exists i, j :: 0 <= i < |ns| && 0 <= j < |ns| &&
                                       NackFromTo(ns[i], ns[j], f) && Beats(ns[i], ns[j])
  {
    if f.Test? {
      var i :| 0 <= i < |s.nodes| && TestFrom(s.nodes[i], f);
      assert TestFrom(ns[i], f);
    }
    if f.Nack? {
      var i, j :| 0 <= i < |s.nodes| && 0 <= j < |s.nodes| &&
                  NackFromTo(s.nodes[i], s.nodes[j], f) && Beats(s.nodes[i], s.nodes[j]);
      assert NackFromTo(ns[i], ns[j], f) && Beats(ns[i], ns[j]);
    }
  }

  /** A node denies only those it beats, so honesty survives every step. */
  lemma HonestKept(s: Net, s': Net, i: nat, t: nat, e: Event)
    requires Honest(s) && NetStep(s, s', i, t, e)
    ensures Honest(s')
  {
    StepIdentity(s, s', i, t, e);
    var ns := s'.nodes;
    forall f | f in s'.air
      ensures f.Test? ==> exists k :: 0 <= k < |ns| && TestFrom(ns[k], f)
      ensures f.Nack? ==> exists k, j :: 0 <= k < |ns| && 0 <= j < |ns| &&
                                         NackFromTo(ns[k], ns[j], f) && Beats(ns[k], ns[j])
    {
      if f in s.air {
        HonestAfter(s, ns, f);
      } else {
        NewFrame(s, s', i, t, e, f);
        if f.Test? { assert TestFrom(ns[i], f); }
        if f.Nack? {
          var j :| 0 <= j < |s.nodes| && TestFrom(s.nodes[j], e.pdu);
          MacEqualIsEquality(e.pdu.sa, s.nodes[i].cfg.mac);
          BeatsIsStrictOrder(s.nodes[i], s.nodes[j], s.nodes[i]);
          assert NackFromTo(ns[i], ns[j], f) && Beats(ns[i], ns[j]);
        }
      }
    }
  }

  /** One step of a network run: which node, when, and what happens to it. */
  datatype Move = Move(i: nat, t: nat, e: Event)

  ghost predicate NetRun(ss: seq<Net>, ms: seq<Move>) {
    && |ss| == |ms| + 1
    && forall k :: 0 <= k < |ms| ==> NetStep(ss[k], ss[k + 1], ms[k].i, ms[k].t, ms[k].e)
  }

  lemma {:induction false} HonestRun(ss: seq<Net>, ms: seq<Move>, k: nat)
    requires NetRun(ss, ms) && Honest(ss[0]) && k < |ss|
    ensures Honest(ss[k]) && SameIdentity(ss[0].nodes, ss[k].nodes)
  {
    if k > 0 {
      HonestRun(ss, ms, k - 1);
      assert NetStep(ss[k - 1], ss[k - 1 + 1], ms[k - 1].i, ms[k - 1].t, ms[k - 1].e);
      HonestKept(ss[k - 1], ss[k], ms[k - 1].i, ms[k - 1].t, ms[k - 1].e);
      StepIdentity(ss[k - 1], ss[k], ms[k - 1].i, ms[k - 1].t, ms[k - 1].e);
    }
  }

  /** In step `k` node `j` stops being manager because of a denial from node `i`. */
  ghost predicate Demotes(ss: seq<Net>, ms: seq<Move>, k: nat, i: nat, j: nat)
    requires NetRun(ss, ms)
  {
    && k < |ms| && ms[k].i == j && i < |ss[k].nodes| && j < |ss[k].nodes| && |ss[k + 1].nodes| == |ss[k].nodes|
    && ss[k].nodes[j].ring.role == MRM && ss[k + 1].nodes[j].ring.role == MRC
    && ms[k].e.Receive? && ms[k].e.pdu.Nack? && ms[k].e.pdu.sa == ss[k].nodes[i].cfg.mac
  }

  /** A node that stops being manager in an honest network was denied by a strictly better auto-manager. */
  lemma DeniedByBetter(s: Net, s': Net, j: nat, t: nat, e: Event) returns (i: nat)
    requires Honest(s) && NetStep(s, s', j, t, e)
    requires s.nodes[j].ring.role == MRM && s'.nodes[j].ring.role == MRC
    ensures i < |s.nodes| && s.nodes[i].cfg.mra && Beats(s.nodes[i], s.nodes[j])
    ensures e.Receive? && e.pdu.Nack? && e.pdu.sa == s.nodes[i].cfg.mac
  {
    OnlyNackDemotes(s.nodes[j], t, e);
    var a, b :| 0 <= a < |s.nodes| && 0 <= b < |s.nodes| &&
                NackFromTo(s.nodes[a], s.nodes[b], e.pdu) && Beats(s.nodes[a], s.nodes[b]);
    SameMac(s.nodes, b, j);
    i := a;
  }

  /** Every demotion, in any run, is by a strictly better auto-manager. */
  lemma DemotedByBetter(ss: seq<Net>, ms: seq<Move>, k: nat, j: nat) returns (i: nat)
    requires NetRun(ss, ms) && Honest(ss[0]) && k < |ms| && j < |ss[0].nodes|
    requires |ss[k].nodes| == |ss[k + 1].nodes| == |ss[0].nodes|
    requires ss[k].nodes[j].ring.role == MRM && ss[k + 1].nodes[j].ring.role == MRC
    ensures Demotes(ss, ms, k, i, j)
    ensures i < |ss[0].nodes| && ss[0].nodes[i].cfg.mra && Beats(ss[0].nodes[i], ss[0].nodes[j])
  {
    HonestRun(ss, ms, k);
    var m := ms[k];
    assert NetStep(ss[k], ss[k + 1], m.i, m.t, m.e);
    assert m.i == j;
    i := DeniedByBetter(ss[k], ss[k + 1], j, m.t, m.e);
  }

  lemma SameMac(ns: seq<Node>, a: nat, b: nat)
    requires DistinctMacs(ns) && a < |ns| && b < |ns| && ns[a].cfg.mac == ns[b].cfg.mac
    ensures a == b
  {
  }

  lemma DemotesBeats(ss: seq<Net>, ms: seq<Move>, k: nat, i: nat, j: nat)
    requires NetRun(ss, ms) && Honest(ss[0]) && Demotes(ss, ms, k, i, j)
    ensures i < |ss[0].nodes| && j < |ss[0].nodes| && Beats(ss[0].nodes[i], ss[0].nodes[j])
  {
    HonestRun(ss, ms, k);
    var i' := DemotedByBetter(ss, ms, k, j);
    SameMac(ss[k].nodes, i, i');
  }

  ghost predicate EverDemotes(ss: seq<Net>, ms: seq<Move>, i: nat, j: nat)
    requires NetRun(ss, ms)
  {
    exists k: nat :: Demotes(ss, ms, k, i, j)
  }

  lemma {:induction false} ChainBeats(ns: seq<Node>, cs: seq<nat>)
    requires |cs| >= 2 && forall q :: 0 <= q < |cs| ==> cs[q] < |ns|
    requires forall q :: 0 <= q < |cs| - 1 ==> Beats(ns[cs[q]], ns[cs[q + 1]])
    ensures Beats(ns[cs[0]], ns[cs[|cs| - 1]])
  {
    var last := |cs| - 1;
    assert Beats(ns[cs[last - 1]], ns[cs[last - 1 + 1]]);
    if last > 1 {
      ChainBeats(ns, cs[..last]);
      BeatsIsStrictOrder(ns[cs[0]], ns[cs[last - 1]], ns[cs[last]]);
    }
  }

  /** Demotions form no cycle: a chain of them, each node by the one before it and at whatever
      steps of the run, never returns to the node it started from. */
  lemma NoDemotionCycle(ss: seq<Net>, ms: seq<Move>, cs: seq<nat>)
    requires NetRun(ss, ms) && Honest(ss[0])
    requires |cs| >= 2 && forall q :: 0 <= q < |cs| ==> cs[q] < |ss[0].nodes|
    requires forall q :: 0 <= q < |cs| - 1 ==> EverDemotes(ss, ms, cs[q], cs[q + 1])
    ensures cs[0] != cs[|cs| - 1]
  {
    var ns := ss[0].nodes;
    forall q | 0 <= q < |cs| - 1
      ensures Beats(ns[cs[q]], ns[cs[q + 1]])
    {
      var k: nat :| Demotes(ss, ms, k, cs[q], cs[q + 1]);
      DemotesBeats(ss, ms, k, cs[q], cs[q + 1]);
    }
    ChainBeats(ns, cs);
    BeatsIsStrictOrder(ns[cs[0]], ns[cs[0]], ns[cs[0]]);
  }

  /** Node `b` is the best of the auto-managers; the other nodes may be anything. */
  predicate Best(ns: seq<Node>, b: nat) {
    && b < |ns| && ns[b].cfg.mra
    && forall j :: 0 <= j < |ns| && j != b && ns[j].cfg.mra ==> Beats(ns[b], ns[j])
  }

  /** Smaller priority number, and at equal priority the smaller byte where the addresses first differ. */
  ghost predicate Wins(c: Config, d: Config) {
    c.prio < d.prio || (c.prio == d.prio && Lower(c.mac, d.mac))
  }

  /** Node `b` is the auto-manager that wins against all others. */
  ghost predicate Winner(ns: seq<Node>, b: nat) {
    && b < |ns| && ns[b].cfg.mra
    && forall j :: 0 <= j < |ns| && j != b && ns[j].cfg.mra ==> Wins(ns[b].cfg, ns[j].cfg)
  }

  lemma BeatsIffWins(n: Node, m: Node)
    ensures Beats(n, m) <==> Wins(n.cfg, m.cfg)
  {
    SpelledOrder(n.cfg.mac, m.cfg.mac);
  }

  /** Who is best, in terms of priority numbers and address bytes. */
  lemma BestIffWinner(ns: seq<Node>, b: nat)
    ensures Best(ns, b) <==> Winner(ns, b)
  {
    if b < |ns| {
      forall j | 0 <= j < |ns| ensures Beats(ns[b], ns[j]) <==> Wins(ns[b].cfg, ns[j].cfg) {
        BeatsIffWins(ns[b], ns[j]);
      }
    }
  }

  lemma {:induction false} BestExists(ns: seq<Node>, k: nat) returns (b: nat)
    requires k < |ns| && ns[k].cfg.mra && DistinctMacs(ns)
    ensures Best(ns, b)
  {
    var last := |ns| - 1;
    var init := ns[..last];
    assert forall j :: 0 <= j < last ==> init[j] == ns[j];
    if q :| 0 <= q < last && ns[q].cfg.mra {
      var a := BestExists(init, q);
      BeatsIsStrictOrder(ns[a], ns[last], ns[a]);
      if !ns[last].cfg.mra || Beats(ns[a], ns[last]) {
        b := a;
      } else {
        b := last;
        forall j | 0 <= j < last && ns[j].cfg.mra ensures Beats(ns[last], ns[j]) {
          assert j != a ==> Beats(init[a], init[j]);
          BeatsIsStrictOrder(ns[last], ns[a], ns[j]);
        }
      }
    } else {
      b := last;
    }
  }

  /** The best auto-manager never stops being manager in an honest network. */
  lemma BestKept(s: Net, s': Net, b: nat, i: nat, t: nat, e: Event)
    requires Honest(s) && NetStep(s, s', i, t, e) && Best(s.nodes, b) && s.nodes[b].ring.role == MRM
    ensures Best(s'.nodes, b) && s'.nodes[b].ring.role == MRM
  {
    if s'.nodes[b].ring.role == MRC {
      var d := DeniedByBetter(s, s', b, t, e);
      BeatsIsStrictOrder(s.nodes[b], s.nodes[d], s.nodes[b]);
      assert false;
    }
    StepIdentity(s, s', i, t, e);
    assert forall j :: 0 <= j < |s.nodes| && s'.nodes[j].cfg.mra && j != b ==> Beats(s.nodes[b], s.nodes[j]);
  }

  lemma {:induction false} BestRun(ss: seq<Net>, ms: seq<Move>, b: nat, k: nat)
    requires NetRun(ss, ms) && Honest(ss[0]) && k < |ss|
    requires Best(ss[0].nodes, b) && ss[0].nodes[b].ring.role == MRM
    ensures Best(ss[k].nodes, b) && ss[k].nodes[b].ring.role == MRM
  {
    if k > 0 {
      BestRun(ss, ms, b, k - 1);
      HonestRun(ss, ms, k - 1);
      var m := ms[k - 1];
      assert NetStep(ss[k - 1], ss[k - 1 + 1], m.i, m.t, m.e);
      BestKept(ss[k - 1], ss[k], b, m.i, m.t, m.e);
    }
  }

  /** The auto-manager with the smallest priority number, and among equals the smallest address, stays
      manager over every run. */
  lemma BestStaysManager(ss: seq<Net>, ms: seq<Move>, b: nat, k: nat)
    requires NetRun(ss, ms) && Honest(ss[0]) && k < |ss|
    requires Winner(ss[0].nodes, b) && ss[0].nodes[b].ring.role == MRM
    ensures Winner(ss[k].nodes, b) && ss[k].nodes[b].ring.role == MRM
  {
    BestIffWinner(ss[0].nodes, b);
    BestRun(ss, ms, b, k);
    BestIffWinner(ss[k].nodes, b);
  }

  /** Election safety: in a network of auto-managers, at least one, and any other nodes, the
      auto-managers start as managers and never all stop being one, whatever the network does. */
  lemma ManagerExists(ss: seq<Net>, ms: seq<Move>, a: nat, k: nat) returns (b: nat)
    requires NetRun(ss, ms) && k < |ss|
    requires DistinctMacs(ss[0].nodes) && ss[0].air == {}
    requires a < |ss[0].nodes| && ss[0].nodes[a].cfg.mra
    requires forall j :: 0 <= j < |ss[0].nodes| && ss[0].nodes[j].cfg.mra ==> ss[0].nodes[j].ring.role == MRM
    ensures Winner(ss[0].nodes, b) && b < |ss[k].nodes| && ss[k].nodes[b].ring.role == MRM
  {
    b := BestExists(ss[0].nodes, a);
    BestIffWinner(ss[0].nodes, b);
    BestStaysManager(ss, ms, b, k);
  }
}
