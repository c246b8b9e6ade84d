/** The ring state and transition count that a fixed-role manager reports in its MRP_Test frames. */
module Telemetry {
  import opened MrpTypes
  import opened MrpRing
  import opened MrpNode
  import opened MrpSetup
  import opened MrmInvariants

  /** How often the run left CHK_RC within its first `k` steps. */
  ghost function Exits(s: seq<Node>, k: nat): nat
    requires k < |s|
  {
    if k == 0 then 0 else Exits(s, k - 1) + if Exit(s[k - 1].ring.mrm, s[k].ring.mrm) then 1 else 0
  }

  /** An output that is a test frame reports the state `n` is in. */
  predicate Reports(n: Node, o: Output) {
    && (o.Sent? && o.pdu.Test? ==> o.pdu.closed == (n.ring.mrm == ChkRc) && o.pdu.transitions == n.ring.transitions)
    && !(o.Relayed? && o.pdu.Test?)
  }

  predicate AllReport(n: Node, os: seq<Output>) {
    forall o :: o in os ==> Reports(n, o)
  }

  /** Swapping the ports before sending does not change what the frames report. */
  lemma PortLinkReports(n: Node, x: RingPort, up: bool)
    ensures AllReport(n, n.MrmPortLinkOut(x, up))
  {
  }

  lemma LinkFrameReports(n: Node, up: bool)
    ensures AllReport(n, n.RecvLinkOut(up))
  {
  }

  lemma RingFrameReports(n: Node, pdu: Pdu)
    requires pdu.IsRingFrame()
    ensures AllReport(n, n.ProcessOut(pdu))
  {
    if pdu.Link? {
      LinkFrameReports(n, pdu.up);
    }
  }

  lemma OtherFrameReports(n: Node, pdu: Pdu)
    requires !pdu.IsRingFrame()
    ensures AllReport(n, n.ProcessOut(pdu))
  {
  }

  lemma InPortLinkReports(n: Node, up: bool)
    ensures AllReport(n, n.InPortLinkOut(up))
  {
  }

  lemma ExpireReports(n: Node, t: TimerId)
    ensures AllReport(n, n.ExpireOut(t))
  {
  }

  lemma OutReports(n: Node, e: Event)
    requires n.ring.role == MRM
    ensures AllReport(n, n.Out(e))
  {
    match e {
      case LinkChange(OnRing(x), up) => PortLinkReports(n.(ring := n.ring.SetOper(x, up)), x, up);
      case LinkChange(OnInter, up) => InPortLinkReports(n, up);
      case CfmChange(defect) => InPortLinkReports(n, !defect);
      case Receive(at, pdu) => if pdu.IsRingFrame() { RingFrameReports(n, pdu); } else { OtherFrameReports(n, pdu); }
      case Expire(t) => ExpireReports(n, t);
    }
  }

  /** A link that comes up leaves no ring, so `mrp_add` returns with a count of zero. */
  lemma LinkUpCounts(c: Config, r: Ring, now: nat, x: RingPort)
    requires r.role == MRM
    ensures var r' := r.LinkChange(c, now, x, true); r'.transitions == r.transitions && r'.role == MRM
  {
  }

  lemma CountStartsAtZero(c: Config, i: InRole, present: bool, up: Links, t: nat)
    requires i != InDisabled || c.inMode == LC ==> present
    ensures Added(c, WantMrm, i, present, up, t).ring.transitions == 0
  {
    var r0 := RoleSet(c, CreatedRing(c), WantMrm);
    LinkUpCounts(c, r0, t, PortA);
    var r1 := if up.a then r0.LinkChange(c, t, PortA, true) else r0;
    LinkUpCounts(c, r1, t, PortB);
  }

  /** Every step of the run moves the count exactly when it leaves CHK_RC. */
  ghost predicate AllCounted(s: seq<Node>) {
    forall k :: 0 < k < |s| ==> Counted(s[k - 1].ring, s[k].ring)
  }

  lemma RunCounted(s: seq<Node>, es: seq<(nat, Event)>)
    requires IsRun(s, es) && FixedMrm(s[0].cfg, s[0].ring, s[0].inter)
    ensures AllCounted(s)
  {
    FixedMrmInductive();
    forall k | 0 < k < |s| ensures Counted(s[k - 1].ring, s[k].ring) {
      Induct(FixedMrm, s, es, k - 1);
      var n, e := s[k - 1], es[k - 1];
      assert s[k - 1 + 1] == n.Step(e.0, e.1);
      MrmInvKept(n.cfg, n.ring, n.inter.role, e.0, e.1, n.Passes(e.1));
    }
  }

  lemma NextMod(a: nat)
    ensures Inc16(a % 0x1_0000) == (a + 1) % 0x1_0000
  {
  }

  /** The reported count is the number of exits from CHK_RC so far, modulo 2^16. */
  lemma {:induction false} CountsExits(s: seq<Node>, k: nat)
    requires k < |s| && AllCounted(s) && s[0].ring.transitions == 0
    ensures s[k].ring.transitions == Exits(s, k) % 0x1_0000
  {
    if k > 0 {
      CountsExits(s, k - 1);
      assert Counted(s[k - 1].ring, s[k].ring);
      NextMod(Exits(s, k - 1));
    }
  }

  /** Every MRP_Test frame of a whole run, including those composed in the middle of a transition,
      says CLOSED iff the manager is in CHK_RC and counts the exits from CHK_RC so far. */
  lemma TestTelemetry(c: Config, i: InRole, present: bool, up: Links, t: nat,
                      s: seq<Node>, es: seq<(nat, Event)>, k: nat, o: Output)
    requires !c.mra && i != MIM && (i != InDisabled || c.inMode == LC ==> present)
    requires IsRun(s, es) && s[0] == Added(c, WantMrm, i, present, up, t) && k < |es|
    requires o in s[k].Out(es[k].1) && !o.Flushed? && o.pdu.Test?
    ensures o.Sent?
    ensures o.pdu.closed <==> s[k].ring.mrm == ChkRc
    ensures o.pdu.transitions == Exits(s, k) % 0x1_0000
  {
    FixedMrmAdded(c, i, present, up, t);
    CountStartsAtZero(c, i, present, up, t);
    RunCounted(s, es);
    CountsExits(s, k);
    FixedMrmInductive();
    Induct(FixedMrm, s, es, k);
    OutReports(s[k], es[k].1);
  }

  /** The states of an instance while `mrp_add` raises the link events of its ring ports. */
  function BeforeA(c: Config, present: bool, t: nat): Node {
    Node(c, RoleSet(c, CreatedRing(c), WantMrm), CreatedInter(c, present, t))
  }

  function BeforeB(c: Config, present: bool, up: Links, t: nat): Node {
    var n := BeforeA(c, present, t);
    if up.a then n.Step(t, LinkChange(OnRing(PortA), true)) else n
  }

  /** The test frames that `mrp_add` itself makes a manager send, before any run begins: OPEN, and no exits. */
  lemma AddTelemetry(c: Config, present: bool, up: Links, t: nat, o: Output)
    requires !o.Flushed? && o.pdu.Test?
    requires (up.a && o in BeforeA(c, present, t).Out(LinkChange(OnRing(PortA), true))) ||
             (up.b && o in BeforeB(c, present, up, t).Out(LinkChange(OnRing(PortB), true)))
    ensures WithRing(c, WantMrm, present, up, t) ==
            if up.b then BeforeB(c, present, up, t).Step(t, LinkChange(OnRing(PortB), true))
            else BeforeB(c, present, up, t)
    ensures o.Sent? && !o.pdu.closed && o.pdu.transitions == 0
  {
    var a, b := BeforeA(c, present, t), BeforeB(c, present, up, t);
    OutReports(a, LinkChange(OnRing(PortA), true));
    LinkUpCounts(c, a.ring, t, PortA);
    OutReports(b, LinkChange(OnRing(PortB), true));
  }
}
