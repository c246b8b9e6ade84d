/** What the interconnection machines keep over every run, under any ring role and in both
    modes, and which timers survive `mrp_destroy`. */
module InterInvariants {
  import opened MrpTypes
  import opened MrpRing
  import opened MrpInter
  import opened MrpNode
  import opened MrpSetup

  /** An instance without an interconnection role runs no interconnection timer except the CCM
      timer of LC mode, and its interconnection machines never leave AC_STAT1. */
  predicate DisabledIdle(i: Inter) {
    i.role == InDisabled ==>
      && i.mim == MimAcStat1 && i.mic == MicAcStat1
      && i.test.Idle? && i.topo.Idle? && i.linkUp.Idle? && i.linkDown.Idle? && i.status.Idle?
      && i.port.state == Disabled
  }

  predicate MimTable(i: Inter) {
    i.role == MIM ==>
      && i.mic == MicAcStat1 && i.linkUp.Idle? && i.linkDown.Idle?
      && i.port.state == (if i.mim == ChkIo then Forwarding else Blocked)
  }

  /** The miss counter stays within its limit and the limit within the configured maximum;
      so does the link-change countdown. */
  predicate Counters(c: Config, i: Inter) {
    && i.testCurr <= i.testCurrMax && c.inTestMax - 1 <= i.testCurrMax <= c.inTestMax
    && i.linkCurrMax <= c.inLinkMax && i.topoCurrMax <= c.inTopoMax - 1
  }

  predicate MicTable(i: Inter) {
    i.role == MIC ==>
      && i.mim == MimAcStat1 && i.test.Idle? && i.topo.Idle? && i.status.Idle?
      && i.port.state == (if i.mic == IpIdle then Forwarding else Blocked)
      && (i.linkUp.Armed? <==> i.mic == MicPt)
      && (i.linkDown.Armed? ==> i.mic == MicAcStat1)
  }

  /** The polling timer belongs to LC mode, and so does the CCM timer. */
  predicate ModeTimers(c: Config, i: Inter) {
    c.inMode == RC ==> i.status.Idle? && i.ccm.Idle?
  }

  /** In RC mode an interconnection manager with a link runs its InTest timer. */
  predicate InHeartbeat(c: Config, i: Inter) {
    c.inMode == RC && i.role == MIM && i.mim != MimAcStat1 ==> i.test.Armed?
  }

  predicate InterInv(c: Config, i: Inter) {
    && InHeartbeat(c, i)
    && (i.role != InDisabled ==> i.present)
    && DisabledIdle(i) && MimTable(i) && MicTable(i) && Counters(c, i) && ModeTimers(c, i)
  }

  lemma PortLinkKeeps(c: Config, i: Inter, now: nat, up: bool)
    requires InterInv(c, i)
    ensures InterInv(c, i.PortLink(c, now, up))
  {
  }

  lemma RecvKeeps(c: Config, i: Inter, now: nat, pdu: Pdu)
    requires InterInv(c, i)
    ensures InterInv(c, i.Recv(c, now, pdu))
  {
  }

  lemma ExpireKeeps(c: Config, i: Inter, now: nat, t: TimerId)
    requires InterInv(c, i)
    ensures InterInv(c, i.Expire(c, now, t))
  {
  }

  lemma InterInvKept(c: Config, i: Inter, now: nat, e: Event, passed: bool)
    requires InterInv(c, i)
    ensures InterInv(c, i.Step(c, now, e, passed))
  {
    match e {
      case LinkChange(OnInter, up) => PortLinkKeeps(c, i, now, up);
      case CfmChange(defect) => PortLinkKeeps(c, i, now, !defect);
      case Receive(_, pdu) => RecvKeeps(c, i, now, pdu);
      case Expire(t) => ExpireKeeps(c, i, now, t);
      case _ =>
    }
  }

  ghost predicate AnyInter(c: Config, r: Ring, i: Inter) { InterInv(c, i) }

  lemma AnyInterInductive()
    ensures Inductive(AnyInter)
  {
    forall n: Node, t: nat, e: Event | AnyInter(n.cfg, n.ring, n.inter)
      ensures AnyInter(n.cfg, n.Step(t, e).ring, n.Step(t, e).inter)
    {
      InterInvKept(n.cfg, n.inter, t, e, n.Passes(e));
    }
  }

  lemma AnyInterAdded(c: Config, w: WantedRole, r: InRole, present: bool, up: Links, t: nat)
    requires r != InDisabled || c.inMode == LC ==> present
    ensures var n := Added(c, w, r, present, up, t); n.cfg == c && InterInv(c, n.inter)
  {
    AnyInterInductive();
    AddedKeeps(AnyInter, c, w, r, present, up, t);
  }

  /** Every state of every run of every instance, whatever its ring role and mode. */
  lemma InterRun(c: Config, w: WantedRole, r: InRole, present: bool, up: Links, t: nat,
                 s: seq<Node>, es: seq<(nat, Event)>, k: nat)
    requires r != InDisabled || c.inMode == LC ==> present
    requires IsRun(s, es) && s[0] == Added(c, w, r, present, up, t) && k < |s|
    ensures s[k].cfg == c && InterInv(c, s[k].inter)
  {
    AnyInterInductive();
    AnyInterAdded(c, w, r, present, up, t);
    Induct(AnyInter, s, es, k);
  }

  // ---- Teardown

  predicate AllIdle(n: Node) {
    forall t: TimerId :: n.TimerOf(t).Idle?
  }

  /** What `mrp_timer_stop` does not touch is idle. */
  predicate Covered(n: Node) {
    if n.inter.role == InDisabled then
      && n.inter.test.Idle? && n.inter.topo.Idle? && n.inter.linkUp.Idle? && n.inter.linkDown.Idle?
      && n.inter.status.Idle? && n.inter.ccm.Idle?
    else if n.cfg.inMode == RC then n.inter.status.Idle? && n.inter.ccm.Idle?
    else n.inter.test.Idle?
  }

  lemma DestroyStops(n: Node)
    ensures AllIdle(Destroyed(n)) <==> Covered(n)
  {
    var d := Destroyed(n);
    assert d.TimerOf(InTestT) == d.inter.test && d.TimerOf(InTopoT) == d.inter.topo;
    assert d.TimerOf(InLinkUpT) == d.inter.linkUp && d.TimerOf(InLinkDownT) == d.inter.linkDown;
    assert d.TimerOf(InLinkStatusT) == d.inter.status && d.TimerOf(CfmCcmT) == d.inter.ccm;
  }

  /** In LC mode the CCM timer runs from `mrp_start_cfm` on, whatever the role. */
  ghost predicate CcmRuns(c: Config, r: Ring, i: Inter) { c.inMode == LC ==> i.ccm.Armed? }

  lemma CcmKept(c: Config, i: Inter, now: nat, e: Event, passed: bool)
    requires i.ccm.Armed?
    ensures i.Step(c, now, e, passed).ccm.Armed?
  {
  }

  lemma CcmInductive()
    ensures Inductive(CcmRuns)
  {
    forall n: Node, t: nat, e: Event | CcmRuns(n.cfg, n.ring, n.inter)
      ensures CcmRuns(n.cfg, n.Step(t, e).ring, n.Step(t, e).inter)
    {
      if n.cfg.inMode == LC {
        CcmKept(n.cfg, n.inter, t, e, n.Passes(e));
      }
    }
  }

  lemma CcmRun(c: Config, w: WantedRole, r: InRole, present: bool, up: Links, t: nat,
               s: seq<Node>, es: seq<(nat, Event)>, k: nat)
    requires r != InDisabled || c.inMode == LC ==> present
    requires IsRun(s, es) && s[0] == Added(c, w, r, present, up, t) && k < |s|
    ensures c.inMode == LC ==> s[k].inter.ccm.Armed?
  {
    CcmInductive();
    AddedKeeps(CcmRuns, c, w, r, present, up, t);
    Induct(CcmRuns, s, es, k);
  }

  /** Whenever it comes, `mrp_destroy` stops all timers of an instance exactly in RC mode, or if the
      instance is an interconnection client, or an interconnection manager whose InTest timer is idle. */
  lemma TeardownIff(c: Config, w: WantedRole, r: InRole, present: bool, up: Links, t: nat,
                    s: seq<Node>, es: seq<(nat, Event)>, k: nat)
    requires r != InDisabled || c.inMode == LC ==> present
    requires IsRun(s, es) && s[0] == Added(c, w, r, present, up, t) && k < |s|
    ensures AllIdle(Destroyed(s[k])) <==> c.inMode == RC || r == MIC || (r == MIM && s[k].inter.test.Idle?)
  {
    InterRun(c, w, r, present, up, t, s, es, k);
    CcmRun(c, w, r, present, up, t, s, es, k);
    AddedRole(c, w, r, present, up, t);
    RoleRun(s, es, k);
    DestroyStops(s[k]);
  }

  /** Event `e` makes an interconnection manager start its InTest timer in LC mode: an InTest frame with
      its id outside CHK_IC, or an InLinkUp frame with its id in CHK_IO. */
  predicate Arms(n: Node, e: Event) {
    && n.Passes(e)
    && ((e.pdu.InTest? && e.pdu.id == n.cfg.inId && n.inter.mim != ChkIc) ||
        (e.pdu.InLink? && e.pdu.up && e.pdu.id == n.cfg.inId && n.inter.mim == ChkIo))
  }

  lemma ArmedByRecv(c: Config, i: Inter, now: nat, f: Pdu)
    requires i.role == MIM
    ensures i.Recv(c, now, f).test.Armed? <==>
            || i.test.Armed?
            || (f.InTest? && f.id == c.inId && i.mim != ChkIc)
            || (f.InLink? && f.up && f.id == c.inId && i.mim == ChkIo)
  {
  }

  lemma ArmedByNothingElse(c: Config, i: Inter, now: nat, e: Event)
    requires c.inMode == LC && i.role == MIM && !e.Receive?
    ensures i.Step(c, now, e, false).test.Armed? <==> i.test.Armed?
  {
  }

  lemma ArmedIff(n: Node, t: nat, e: Event)
    requires n.cfg.inMode == LC && n.inter.role == MIM
    ensures n.Step(t, e).inter.test.Armed? <==> n.inter.test.Armed? || Arms(n, e)
  {
    if e.Receive? {
      ArmedByRecv(n.cfg, n.inter, t, e.pdu);
    } else {
      ArmedByNothingElse(n.cfg, n.inter, t, e);
    }
  }

  /** None of the first `k` events has started the InTest timer. */
  ghost predicate Unarmed(s: seq<Node>, es: seq<(nat, Event)>, k: nat)
    requires k <= |es| < |s|
  {
    k == 0 || (Unarmed(s, es, k - 1) && !Arms(s[k - 1], es[k - 1].1))
  }

  lemma {:induction false} ArmedRun(s: seq<Node>, es: seq<(nat, Event)>, k: nat)
    requires IsRun(s, es) && k < |s|
    requires s[0].cfg.inMode == LC && s[0].inter.role == MIM && s[0].inter.test.Idle?
    ensures s[k].inter.test.Idle? <==> Unarmed(s, es, k)
  {
    if k > 0 {
      ArmedRun(s, es, k - 1);
      RoleRun(s, es, k - 1);
      assert s[k - 1 + 1] == s[k - 1].Step(es[k - 1].0, es[k - 1].1);
      ArmedIff(s[k - 1], es[k - 1].0, es[k - 1].1);
    }
  }

  /** In LC mode `mrp_add` does not start the InTest timer. */
  lemma AddedUnarmed(c: Config, w: WantedRole, present: bool, up: Links, t: nat)
    requires c.inMode == LC && present
    ensures Added(c, w, MIM, present, up, t).inter.test.Idle?
  {
    var n0 := Node(c, RoleSet(c, CreatedRing(c), w), CreatedInter(c, present, t));
    var n1 := if up.a then n0.Step(t, LinkChange(OnRing(PortA), true)) else n0;
    assert n1.inter == n0.inter;
    var n2 := WithRing(c, w, present, up, t);
    assert n2.inter == n0.inter && n2.cfg == c;
  }

  /** The same condition in terms of what has happened: in LC mode an interconnection manager loses no
      timer to `mrp_destroy` exactly if no frame so far has started its InTest timer. */
  lemma TeardownHistory(c: Config, w: WantedRole, r: InRole, present: bool, up: Links, t: nat,
                        s: seq<Node>, es: seq<(nat, Event)>, k: nat)
    requires r != InDisabled || c.inMode == LC ==> present
    requires IsRun(s, es) && s[0] == Added(c, w, r, present, up, t) && k < |s|
    ensures AllIdle(Destroyed(s[k])) <==> c.inMode == RC || r == MIC || (r == MIM && Unarmed(s, es, k))
  {
    TeardownIff(c, w, r, present, up, t, s, es, k);
    if c.inMode == LC && r == MIM {
      AddedUnarmed(c, w, present, up, t);
      AddedRole(c, w, r, present, up, t);
      InterRun(c, w, r, present, up, t, s, es, 0);
      ArmedRun(s, es, k);
    }
  }

  /** In RC mode no timer of the instance survives `mrp_destroy`. */
  lemma TeardownRun(c: Config, w: WantedRole, r: InRole, present: bool, up: Links, t: nat,
                    s: seq<Node>, es: seq<(nat, Event)>, k: nat)
    requires c.inMode == RC && (r != InDisabled ==> present)
    requires IsRun(s, es) && s[0] == Added(c, w, r, present, up, t) && k < |s|
    ensures AllIdle(Destroyed(s[k]))
  {
    TeardownIff(c, w, r, present, up, t, s, es, k);
  }

  /** In LC mode an interconnection manager that has seen one InTest frame with its own id keeps
      its InTest timer through `mrp_destroy`. */
  lemma TeardownLeakInLc(c: Config, t: nat)
    requires c.inMode == LC
    ensures var n := Added(c, WantMrc, MIM, true, Links(false, false, false), t);
            var m := n.Step(t, Receive(OnInter, InTest(c.inId, c.mac, Interconnect, false, 0)));
            m.inter.test.Armed? && !AllIdle(Destroyed(m))
  {
    var n := Added(c, WantMrc, MIM, true, Links(false, false, false), t);
    var m := n.Step(t, Receive(OnInter, InTest(c.inId, c.mac, Interconnect, false, 0)));
    DestroyStops(m);
  }

  /** In LC mode an instance without an interconnection role keeps its CCM timer through
      `mrp_destroy`, even if nothing has happened to it. */
  lemma CcmLeakInLc(c: Config, w: WantedRole, up: Links, t: nat)
    requires c.inMode == LC
    ensures var n := Added(c, w, InDisabled, true, up, t);
            Destroyed(n).inter.ccm.Armed? && !AllIdle(Destroyed(n))
  {
    var n := Added(c, w, InDisabled, true, up, t);
    CcmRun(c, w, InDisabled, true, up, t, [n], [], 0);
    AddedRole(c, w, InDisabled, true, up, t);
    DestroyStops(n);
  }
}
