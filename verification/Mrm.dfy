/** What a fixed-role manager keeps over every run. */
module MrmInvariants {
  import opened MrpTypes
  import opened EtherAddr
  import opened MrpRing
  import opened MrpInter
  import opened MrpNode
  import opened MrpSetup

  predicate PortTable(r: Ring) {
    match r.mrm
    case MrmAcStat1 => r.p.state == Blocked && r.s.state == Blocked
    case PrmUp => r.p.state == Forwarding && r.s.state == Blocked
    case ChkRo => r.p.state == Forwarding && r.s.state == Forwarding
    case ChkRc => r.p.state == Forwarding && r.s.state == Blocked
  }

  predicate Heartbeat(r: Ring) {
    r.test.Armed? <==> r.mrm != MrmAcStat1
  }

  predicate TopologyCounter(c: Config, r: Ring) {
    && r.topoRunning == r.topo.Armed?
    && r.topoCurrMax <= c.topoMax - 1
    && (r.topo.Idle? ==> r.topoCurrMax == c.topoMax - 1)
  }

  predicate TestCounter(c: Config, r: Ring) {
    r.mrm == ChkRc ==> r.testCurr <= r.testCurrMax == c.testMax - 1
  }

  predicate MrmInv(c: Config, r: Ring) {
    && !c.mra && r.role == MRM
    && PortTable(r)
    && Heartbeat(r)
    && TopologyCounter(c, r)
    && TestCounter(c, r)
    && !r.noTc
    && r.linkUp.Idle? && r.linkDown.Idle?
  }

  /** Whether a change of state is an exit from CHK_RC. */
  predicate Exit(m: MrmState, m': MrmState) { m == ChkRc && m' != ChkRc }

  /** The transition count moves exactly when CHK_RC is left. */
  predicate Counted(r: Ring, r': Ring) {
    r'.transitions == if Exit(r.mrm, r'.mrm) then Inc16(r.transitions) else r.transitions
  }

  predicate Keeps(c: Config, r: Ring, r': Ring) { MrmInv(c, r') && Counted(r, r') }

  lemma LinkUpKeeps(c: Config, r: Ring, now: nat, x: RingPort)
    requires MrmInv(c, r)
    ensures Keeps(c, r, r.MrmPortLink(c, now, x, true))
  {
  }

  lemma LinkDownInPrmUp(c: Config, r: Ring, now: nat, x: RingPort)
    requires MrmInv(c, r) && (r.mrm == MrmAcStat1 || r.mrm == PrmUp)
    ensures Keeps(c, r, r.MrmPortLink(c, now, x, false))
  {
  }

  lemma LinkDownInChkRo(c: Config, r: Ring, now: nat, x: RingPort)
    requires MrmInv(c, r) && r.mrm == ChkRo
    ensures Keeps(c, r, r.MrmPortLink(c, now, x, false))
  {
  }

  lemma LinkDownInChkRc(c: Config, r: Ring, now: nat, x: RingPort)
    requires MrmInv(c, r) && r.mrm == ChkRc
    ensures Keeps(c, r, r.MrmPortLink(c, now, x, false))
  {
  }

  lemma LinkDownKeeps(c: Config, r: Ring, now: nat, x: RingPort)
    requires MrmInv(c, r)
    ensures Keeps(c, r, r.MrmPortLink(c, now, x, false))
  {
    match r.mrm {
      case ChkRo => LinkDownInChkRo(c, r, now, x);
      case ChkRc => LinkDownInChkRc(c, r, now, x);
      case _ => LinkDownInPrmUp(c, r, now, x);
    }
  }

  lemma LinkKeeps(c: Config, r: Ring, now: nat, x: RingPort, up: bool)
    requires MrmInv(c, r)
    ensures Keeps(c, r, r.LinkChange(c, now, x, up))
  {
    if up {
      LinkUpKeeps(c, r.SetOper(x, up), now, x);
    } else {
      LinkDownKeeps(c, r.SetOper(x, up), now, x);
    }
  }

  lemma OwnTestKeeps(c: Config, r: Ring, now: nat)
    requires MrmInv(c, r)
    ensures Keeps(c, r, r.RecvOwnTest(c, now))
  {
  }

  lemma RecvLinkOpen(c: Config, r: Ring, now: nat, up: bool)
    requires MrmInv(c, r) && r.mrm == ChkRo
    ensures Keeps(c, r, r.RecvLink(c, now, up))
  {
  }

  lemma RecvLinkClosed(c: Config, r: Ring, now: nat, up: bool)
    requires MrmInv(c, r) && r.mrm == ChkRc
    ensures Keeps(c, r, r.RecvLink(c, now, up))
  {
  }

  lemma RecvLinkEarly(c: Config, r: Ring, now: nat, up: bool)
    requires MrmInv(c, r) && (r.mrm == MrmAcStat1 || r.mrm == PrmUp)
    ensures Keeps(c, r, r.RecvLink(c, now, up))
  {
  }

  lemma RecvLinkKeeps(c: Config, r: Ring, now: nat, up: bool)
    requires MrmInv(c, r)
    ensures Keeps(c, r, r.RecvLink(c, now, up))
  {
    match r.mrm {
      case ChkRo => RecvLinkOpen(c, r, now, up);
      case ChkRc => RecvLinkClosed(c, r, now, up);
      case _ => RecvLinkEarly(c, r, now, up);
    }
  }

  lemma TestExpiryOpen(c: Config, r: Ring, now: nat)
    requires MrmInv(c, r) && r.mrm != ChkRc
    ensures Keeps(c, r, r.Expire(c, now, RingTestT))
  {
  }

  lemma TestExpiryClosed(c: Config, r: Ring, now: nat)
    requires MrmInv(c, r) && r.mrm == ChkRc
    ensures Keeps(c, r, r.Expire(c, now, RingTestT))
  {
  }

  lemma ExpireKeeps(c: Config, r: Ring, now: nat, t: TimerId)
    requires MrmInv(c, r)
    ensures Keeps(c, r, r.Expire(c, now, t))
  {
    if t == RingTestT {
      if r.mrm == ChkRc {
        TestExpiryClosed(c, r, now);
      } else {
        TestExpiryOpen(c, r, now);
      }
    }
  }

  lemma RecvKeeps(c: Config, r: Ring, i: InRole, now: nat, pdu: Pdu)
    requires MrmInv(c, r) && i != MIM
    ensures Keeps(c, r, r.Recv(c, now, i, pdu))
  {
    match pdu {
      case Test(_, _, _, _, _) => OwnTestKeeps(c, r, now);
      case Link(up, _, _, _, _) => RecvLinkKeeps(c, r, now, up);
      case _ =>
    }
  }

  lemma MrmInvKept(c: Config, r: Ring, i: InRole, now: nat, e: Event, passed: bool)
    requires MrmInv(c, r) && i != MIM
    ensures Keeps(c, r, r.Step(c, i, now, e, passed))
  {
    match e {
      case LinkChange(OnRing(x), up) => LinkKeeps(c, r, now, x, up);
      case Receive(_, pdu) => RecvKeeps(c, r, i, now, pdu);
      case Expire(t) => ExpireKeeps(c, r, now, t);
      case _ =>
    }
  }

  /** A manager without auto-manager support. It must not be an interconnection manager
      either, because such a node processes TestMgrNAck frames. */
  predicate FixedMrm(c: Config, r: Ring, i: Inter) {
    MrmInv(c, r) && i.role != MIM
  }

  lemma FixedMrmInductive()
    ensures Inductive(FixedMrm)
  {
    forall n: Node, t: nat, e: Event | FixedMrm(n.cfg, n.ring, n.inter)
      ensures FixedMrm(n.cfg, n.Step(t, e).ring, n.Step(t, e).inter)
    {
      MrmInvKept(n.cfg, n.ring, n.inter.role, t, e, n.Passes(e));
    }
  }

  lemma FixedMrmAdded(c: Config, i: InRole, present: bool, up: Links, t: nat)
    requires !c.mra && i != MIM && (i != InDisabled || c.inMode == LC ==> present)
    ensures var n := Added(c, WantMrm, i, present, up, t);
            n.cfg == c && FixedMrm(c, n.ring, n.inter)
  {
    FixedMrmInductive();
    AddedKeeps(FixedMrm, c, WantMrm, i, present, up, t);
  }

  /** Every state of every run of a fixed-role manager. */
  lemma MrmRun(c: Config, i: InRole, present: bool, up: Links, t: nat, s: seq<Node>, es: seq<(nat, Event)>, k: nat)
    requires !c.mra && i != MIM && (i != InDisabled || c.inMode == LC ==> present)
    requires IsRun(s, es) && s[0] == Added(c, WantMrm, i, present, up, t) && k < |s|
    ensures s[k].cfg == c
    ensures PortTable(s[k].ring) && Heartbeat(s[k].ring)
    ensures TopologyCounter(c, s[k].ring) && TestCounter(c, s[k].ring)
    ensures s[k].ring.role == MRM && !s[k].ring.noTc
  {
    FixedMrmAdded(c, i, present, up, t);
    FixedMrmInductive();
    Induct(FixedMrm, s, es, k);
  }

  // ---- States and links

  /** The state of a manager says which of its ring links are up. */
  predicate LinksKnown(r: Ring) {
    && (r.mrm == MrmAcStat1 <==> !r.p.up && !r.s.up)
    && (r.mrm == PrmUp <==> r.p.up && !r.s.up)
    && (r.mrm == ChkRo || r.mrm == ChkRc <==> r.p.up && r.s.up)
  }

  /** An own test frame in PRM_UP closes the ring although the second link was never reported. */
  predicate Surprise(n: Node, e: Event) {
    n.ring.mrm == PrmUp && n.Passes(e) && e.pdu.Test? && MacEqual(e.pdu.sa, n.cfg.mac)
  }

  lemma LinkTold(c: Config, r: Ring, t: nat, x: RingPort, up: bool)
    requires MrmInv(c, r) && LinksKnown(r)
    ensures LinksKnown(r.LinkChange(c, t, x, up))
  {
  }

  lemma FrameTold(c: Config, r: Ring, i: InRole, t: nat, f: Pdu)
    requires MrmInv(c, r) && i != MIM && LinksKnown(r)
    requires !(r.mrm == PrmUp && f.Test? && MacEqual(f.sa, c.mac))
    ensures LinksKnown(r.Recv(c, t, i, f))
  {
  }

  lemma ExpiryTold(c: Config, r: Ring, t: nat, id: TimerId)
    requires MrmInv(c, r) && LinksKnown(r)
    ensures LinksKnown(r.Expire(c, t, id))
  {
  }

  lemma LinksKept(n: Node, t: nat, e: Event)
    requires FixedMrm(n.cfg, n.ring, n.inter) && LinksKnown(n.ring) && !Surprise(n, e)
    ensures LinksKnown(n.Step(t, e).ring)
  {
    match e {
      case LinkChange(OnRing(x), up) => LinkTold(n.cfg, n.ring, t, x, up);
      case Receive(_, f) => if n.Passes(e) { FrameTold(n.cfg, n.ring, n.inter.role, t, f); }
      case Expire(id) => ExpiryTold(n.cfg, n.ring, t, id);
      case _ =>
    }
  }

  /** On every run, repeated link events included, AC_STAT1 iff no ring link is up, PRM_UP iff only the
      primary, CHK_RO or CHK_RC iff both; unless an own test frame arrives in PRM_UP. */
  lemma {:induction false} LinksRun(s: seq<Node>, es: seq<(nat, Event)>, k: nat)
    requires IsRun(s, es) && k < |s| && FixedMrm(s[0].cfg, s[0].ring, s[0].inter) && LinksKnown(s[0].ring)
    requires forall q :: 0 <= q < k ==> !Surprise(s[q], es[q].1)
    ensures FixedMrm(s[k].cfg, s[k].ring, s[k].inter) && LinksKnown(s[k].ring)
  {
    if k > 0 {
      LinksRun(s, es, k - 1);
      var n, e := s[k - 1], es[k - 1];
      assert s[k - 1 + 1] == n.Step(e.0, e.1) && !Surprise(n, e.1);
      LinksKept(n, e.0, e.1);
      MrmInvKept(n.cfg, n.ring, n.inter.role, e.0, e.1, n.Passes(e.1));
      RolesStay(n, e.0, e.1);
    }
  }

  /** So it is when `mrp_add` returns. */
  lemma LinksAdded(c: Config, i: InRole, present: bool, up: Links, t: nat)
    requires !c.mra && i != MIM && (i != InDisabled || c.inMode == LC ==> present)
    ensures LinksKnown(Added(c, WantMrm, i, present, up, t).ring)
  {
    var n0 := Node(c, RoleSet(c, CreatedRing(c), WantMrm), CreatedInter(c, present, t));
    LinkTold(c, n0.ring, t, PortA, true);
    LinkKeeps(c, n0.ring, t, PortA, true);
    var r1 := if up.a then n0.ring.LinkChange(c, t, PortA, true) else n0.ring;
    LinkTold(c, r1, t, PortB, true);
  }
}
