/** How long a demoted auto-manager waits before it makes itself manager again. */
module Monitor {
  import opened MrpTypes
  import opened EtherAddr
  import opened MrpRing
  import opened MrpNode
  import opened MrpSetup

  /** A demoted auto-manager; its test timer goes on and counts for the monitor. */
  predicate Demoted(n: Node) { n.cfg.mra && n.ring.role == MRC && n.ring.test.Armed? }

  /** What makes it wait anew: a test frame of a node that wins against it, unless that is the manager it
      has heard of already, or the confirmation of its own TestPropagate. */
  ghost predicate Resets(n: Node, e: Event) {
    && n.Passes(e)
    && ((e.pdu.Test? && e.pdu.sa != n.cfg.mac && e.pdu.sa != n.ring.ringMac &&
         (e.pdu.prio < n.cfg.prio || (e.pdu.prio == n.cfg.prio && Lower(e.pdu.sa, n.cfg.mac)))) ||
        (e.pdu.Propagate? && e.pdu.sa == n.cfg.mac && e.pdu.otherPrio == e.pdu.prio))
  }

  lemma TestWatched(c: Config, r: Ring, t: nat, prio: u16, sa: Mac)
    requires c.mra && r.role == MRC && r.test.Armed?
    ensures var r' := r.RecvTest(c, t, prio, sa);
            && r'.role == MRC && r'.test.Armed?
            && r'.monCurr == if sa != c.mac && sa != r.ringMac &&
                                (prio < c.prio || (prio == c.prio && Lower(sa, c.mac))) then 0 else r.monCurr
  {
    MacEqualIsEquality(sa, c.mac);
    MacEqualIsEquality(sa, r.ringMac);
    SpelledOrder(sa, c.mac);
  }

  lemma FrameWatched(c: Config, r: Ring, i: InRole, t: nat, f: Pdu)
    requires c.mra && r.role == MRC && r.test.Armed? && !f.Test?
    ensures var r' := r.Recv(c, t, i, f);
            && r'.role == MRC && r'.test.Armed?
            && r'.monCurr == if f.Propagate? && f.sa == c.mac && f.otherPrio == f.prio then 0 else r.monCurr
  {
    if f.Propagate? {
      MacEqualIsEquality(f.sa, c.mac);
    }
  }

  lemma LinkWatched(c: Config, r: Ring, t: nat, x: RingPort, up: bool)
    requires r.role == MRC
    ensures var r' := r.LinkChange(c, t, x, up); r'.role == MRC && r'.test == r.test && r'.monCurr == r.monCurr
  {
  }

  lemma ExpiryWatched(c: Config, r: Ring, t: nat, id: TimerId)
    requires c.mra && r.role == MRC && r.test.Armed? && (id != RingTestT || r.monCurr <= c.monMax)
    ensures var r' := r.Expire(c, t, id);
            r'.role == MRC && r'.test.Armed? && r'.monCurr == if id == RingTestT then r.monCurr + 1 else r.monCurr
  {
  }

  /** Exactly those events reset the monitor, only an expiry of the test timer advances it, and up to
      `monMax` the node stays a client. */
  lemma Watches(n: Node, t: nat, e: Event)
    requires Demoted(n) && (e == Expire(RingTestT) ==> n.ring.monCurr <= n.cfg.monMax)
    ensures var n' := n.Step(t, e);
            && n'.cfg == n.cfg && Demoted(n')
            && n'.ring.monCurr == if Resets(n, e) then 0
                                  else if e == Expire(RingTestT) then n.ring.monCurr + 1 else n.ring.monCurr
  {
    match e {
      case LinkChange(OnRing(x), up) => LinkWatched(n.cfg, n.ring, t, x, up);
      case Receive(_, f) =>
        if f.Test? {
          TestWatched(n.cfg, n.ring, t, f.prio, f.sa);
        } else {
          FrameWatched(n.cfg, n.ring, n.inter.role, t, f);
        }
      case Expire(id) => ExpiryWatched(n.cfg, n.ring, t, id);
      case _ =>
    }
  }

  /** The priority of another manager is noted with its bytes exchanged; the confirmation of its own
      TestPropagate makes the node take over what that frame said. */
  lemma Notes(n: Node, t: nat, at: PortRef, f: Pdu)
    requires Demoted(n) && n.Passes(Receive(at, f))
    ensures var r := n.Step(t, Receive(at, f)).ring;
            && (f.Test? && f.sa != n.cfg.mac && f.sa != n.ring.ringMac ==>
                  r.ringPrio == Swap16(f.prio) && r.ringMac == n.ring.ringMac)
            && (f.Propagate? && f.sa == n.cfg.mac && f.otherPrio == f.prio ==>
                  r.ringPrio == f.otherPrio && r.ringMac == f.otherSa)
  {
    if f.Test? {
      MacEqualIsEquality(f.sa, n.cfg.mac);
      MacEqualIsEquality(f.sa, n.ring.ringMac);
    } else if f.Propagate? {
      MacEqualIsEquality(f.sa, n.cfg.mac);
    }
  }

  ghost predicate Unanswered(s: seq<Node>, es: seq<(nat, Event)>, k: nat) {
    k <= |es| == |s| - 1 && forall q :: 0 <= q < k ==> !Resets(s[q], es[q].1)
  }

  lemma {:induction false} Waits(s: seq<Node>, es: seq<(nat, Event)>, k: nat)
    requires IsRun(s, es) && Unanswered(s, es, k) && Demoted(s[0])
    requires s[0].ring.monCurr + Ticks(es, RingTestT, k) <= s[0].cfg.monMax + 1
    ensures s[k].cfg == s[0].cfg && Demoted(s[k])
    ensures s[k].ring.monCurr == s[0].ring.monCurr + Ticks(es, RingTestT, k)
  {
    if k > 0 {
      Waits(s, es, k - 1);
      var n, e := s[k - 1], es[k - 1];
      assert s[k - 1 + 1] == n.Step(e.0, e.1) && !Resets(n, e.1);
      Watches(n, e.0, e.1);
    }
  }

  /** The state in which a client with the given links goes on as manager. */
  function Resumed(m: MrcState): MrmState
    requires m != MrcAcStat1
  {
    match m
    case DeIdle => PrmUp
    case DataExchange => PrmUp
    case PassThrough => ChkRc
    case PtIdle => ChkRo
  }

  lemma PromotesAtLast(n: Node, t: nat)
    requires Demoted(n) && n.ring.monCurr > n.cfg.monMax && n.ring.mrc != MrcAcStat1
    ensures var r := n.Step(t, Expire(RingTestT)).ring; r.role == MRM && r.mrm == Resumed(n.ring.mrc)
  {
  }

  /** Without such an event, the node is a client up to the expiry that finds the monitor above its maximum,
      and exactly that one makes it manager again, if it has a ring link. */
  lemma Promotes(s: seq<Node>, es: seq<(nat, Event)>, k: nat)
    requires IsRun(s, es) && k < |es| && Unanswered(s, es, k) && Demoted(s[0]) && es[k].1 == Expire(RingTestT)
    requires s[0].ring.monCurr + Ticks(es, RingTestT, k) == s[0].cfg.monMax + 1
    requires s[k].ring.mrc != MrcAcStat1
    ensures s[k].ring.role == MRC && s[k + 1].ring.role == MRM && s[k + 1].ring.mrm == Resumed(s[k].ring.mrc)
  {
    Waits(s, es, k);
    assert s[k + 1] == s[k].Step(es[k].0, es[k].1);
    PromotesAtLast(s[k], es[k].0);
  }
}
