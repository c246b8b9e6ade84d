/** How long a closed ring stays closed: as long as the manager's test frames come back. */
module Stability {
  import opened MrpTypes
  import opened EtherAddr
  import opened MrpRing
  import opened MrpNode
  import opened MrpSetup
  import opened MrmInvariants

  /** One of the manager's own test frames has come back. */
  predicate Seen(n: Node, e: Event) {
    n.Passes(e) && e.pdu.Test? && e.pdu.sa == n.cfg.mac
  }

  /** A ring link is lost, or the loss of one is reported to a manager that reacts to it. */
  predicate Broken(n: Node, e: Event) {
    || (e.LinkChange? && e.port.OnRing? && !e.up)
    || (n.Passes(e) && e.pdu.Link? && !e.pdu.up && n.cfg.react)
  }

  /** A returning test frame clears the miss counter, and the ring stays closed. */
  lemma SeenClears(n: Node, t: nat, e: Event)
    requires FixedMrm(n.cfg, n.ring, n.inter) && n.ring.mrm == ChkRc && Seen(n, e)
    ensures var r := n.Step(t, e).ring; r.mrm == ChkRc && r.testCurr == 0
  {
    MacEqualIsEquality(e.pdu.sa, n.cfg.mac);
  }

  lemma LinkStays(c: Config, r: Ring, t: nat, x: RingPort)
    requires MrmInv(c, r) && r.mrm == ChkRc
    ensures var r' := r.LinkChange(c, t, x, true); r'.mrm == ChkRc && r'.testCurr == r.testCurr
  {
  }

  lemma FrameStays(c: Config, r: Ring, i: InRole, t: nat, f: Pdu)
    requires MrmInv(c, r) && i != MIM && r.mrm == ChkRc
    requires !(f.Test? && f.sa == c.mac) && !(f.Link? && !f.up && c.react)
    ensures var r' := r.Recv(c, t, i, f); r'.mrm == ChkRc && r'.testCurr == r.testCurr
  {
    if f.Test? {
      MacEqualIsEquality(f.sa, c.mac);
    }
  }

  lemma ExpiryStays(c: Config, r: Ring, t: nat, id: TimerId)
    requires MrmInv(c, r) && r.mrm == ChkRc && (id != RingTestT || r.testCurr < c.testMax - 1)
    ensures var r' := r.Expire(c, t, id);
            r'.mrm == ChkRc && r'.testCurr == if id == RingTestT then r.testCurr + 1 else r.testCurr
  {
  }

  /** Every other event leaves the ring closed, unless it breaks it or is one missed test frame too many;
      only an expiry of the test timer counts as a miss. */
  lemma OthersStay(n: Node, t: nat, e: Event)
    requires FixedMrm(n.cfg, n.ring, n.inter) && n.ring.mrm == ChkRc && !Seen(n, e) && !Broken(n, e)
    requires e == Expire(RingTestT) ==> n.ring.testCurr < n.cfg.testMax - 1
    ensures var r := n.Step(t, e).ring;
            r.mrm == ChkRc && r.testCurr == if e == Expire(RingTestT) then n.ring.testCurr + 1 else n.ring.testCurr
  {
    match e {
      case LinkChange(OnRing(x), _) => LinkStays(n.cfg, n.ring, t, x);
      case Receive(_, f) => if n.Passes(e) { FrameStays(n.cfg, n.ring, n.inter.role, t, f); }
      case Expire(id) => ExpiryStays(n.cfg, n.ring, t, id);
      case _ =>
    }
  }

  /** One miss more than that opens the ring at its secondary port. */
  lemma MissedOpens(n: Node, t: nat)
    requires FixedMrm(n.cfg, n.ring, n.inter) && n.ring.mrm == ChkRc && n.ring.testCurr == n.cfg.testMax - 1
    ensures var r := n.Step(t, Expire(RingTestT)).ring; r.mrm == ChkRo && r.s.state == Forwarding
  {
  }

  lemma LinkEntry(c: Config, r: Ring, t: nat, x: RingPort, up: bool)
    requires MrmInv(c, r) && r.mrm != ChkRc
    ensures var r' := r.LinkChange(c, t, x, up); r'.mrm == ChkRc ==> r'.testCurr == 0
  {
  }

  lemma FrameEntry(c: Config, r: Ring, i: InRole, t: nat, f: Pdu)
    requires MrmInv(c, r) && i != MIM && r.mrm != ChkRc
    ensures var r' := r.Recv(c, t, i, f); r'.mrm == ChkRc ==> r'.testCurr == 0
  {
  }

  /** Whenever a ring is closed, no miss is counted yet. */
  lemma EntryClears(n: Node, t: nat, e: Event)
    requires FixedMrm(n.cfg, n.ring, n.inter) && n.ring.mrm != ChkRc && n.Step(t, e).ring.mrm == ChkRc
    ensures n.Step(t, e).ring.testCurr == 0
  {
    match e {
      case LinkChange(OnRing(x), up) => LinkEntry(n.cfg, n.ring, t, x, up);
      case Receive(_, f) => FrameEntry(n.cfg, n.ring, n.inter.role, t, f);
      case _ =>
    }
  }

  /** Nothing breaks the ring in the first `k` events. */
  ghost predicate Unbroken(s: seq<Node>, es: seq<(nat, Event)>, k: nat) {
    k <= |es| == |s| - 1 && forall q :: 0 <= q < k ==> !Broken(s[q], es[q].1)
  }

  /** No own test frame has come back from event `p` up to event `q`. */
  ghost predicate Silent(s: seq<Node>, es: seq<(nat, Event)>, p: nat, q: nat) {
    p <= q <= |es| == |s| - 1 && forall i :: p <= i < q ==> !Seen(s[i], es[i].1)
  }

  /** At most `testMax - 1` expiries of the test timer lie between own test frames, up to event `k`. */
  ghost predicate Answered(s: seq<Node>, es: seq<(nat, Event)>, k: nat) {
    && k <= |es| == |s| - 1
    && forall p, q :: 0 <= p <= q <= k && Silent(s, es, p, q) ==>
         Ticks(es, RingTestT, q) - Ticks(es, RingTestT, p) <= s[0].cfg.testMax - 1
  }

  lemma AnsweredAt(s: seq<Node>, es: seq<(nat, Event)>, k: nat, p: nat, q: nat)
    requires Answered(s, es, k) && p <= q <= k && Silent(s, es, p, q)
    ensures Ticks(es, RingTestT, q) - Ticks(es, RingTestT, p) <= s[0].cfg.testMax - 1
  {
  }

  /** The event after the last own test frame before state `k`. */
  ghost function Since(s: seq<Node>, es: seq<(nat, Event)>, k: nat): (p: nat)
    requires k <= |es| == |s| - 1
    ensures Silent(s, es, p, k)
  {
    if k == 0 then 0 else if Seen(s[k - 1], es[k - 1].1) then k else Since(s, es, k - 1)
  }

  /** A closed ring stays closed, with as many misses counted as there were expiries since the last own
      test frame, as long as nothing breaks it and its test frames are answered in time. */
  lemma {:induction false} StaysClosed(s: seq<Node>, es: seq<(nat, Event)>, k: nat)
    requires IsRun(s, es) && Unbroken(s, es, k) && Answered(s, es, k)
    requires FixedMrm(s[0].cfg, s[0].ring, s[0].inter) && s[0].ring.mrm == ChkRc && s[0].ring.testCurr == 0
    ensures s[k].cfg == s[0].cfg && FixedMrm(s[k].cfg, s[k].ring, s[k].inter)
    ensures s[k].ring.mrm == ChkRc && s[k].ring.s.state == Blocked
    ensures s[k].ring.testCurr == Ticks(es, RingTestT, k) - Ticks(es, RingTestT, Since(s, es, k))
  {
    if k > 0 {
      StaysClosed(s, es, k - 1);
      var n, e := s[k - 1], es[k - 1];
      assert s[k - 1 + 1] == n.Step(e.0, e.1) && !Broken(n, e.1);
      MrmInvKept(n.cfg, n.ring, n.inter.role, e.0, e.1, n.Passes(e.1));
      RolesStay(n, e.0, e.1);
      if Seen(n, e.1) {
        SeenClears(n, e.0, e.1);
      } else {
        AnsweredAt(s, es, k, Since(s, es, k), k);
        OthersStay(n, e.0, e.1);
      }
    }
  }
}
