/** When an interconnection manager opens its port: exactly when its InTest frames stop coming back. */
module InterDetection {
  import opened MrpTypes
  import opened Arithmetic
  import opened EtherAddr
  import opened MrpInter
  import opened MrpNode
  import opened MrpSetup
  import opened InterInvariants
  import opened Recovery
  import opened Detection

  predicate Mim(n: Node) { InterInv(n.cfg, n.inter) && n.inter.role == MIM }

  /** An InTest frame with the own id has come back. */
  predicate InSeen(n: Node, e: Event) { n.Passes(e) && e.pdu.InTest? && e.pdu.id == n.cfg.inId }

  /** A change of an interconnection link is reported by a frame with the own id. */
  predicate InReported(n: Node, e: Event, up: bool) {
    n.Passes(e) && e.pdu.InLink? && e.pdu.up == up && e.pdu.id == n.cfg.inId
  }

  /** The own interconnection link is lost. */
  predicate InLost(e: Event) {
    (e.LinkChange? && e.port.OnInter? && !e.up) || (e.CfmChange? && e.defect)
  }

  // ---- Single steps

  /** A returning InTest frame clears the miss counter, and the port stays blocked. */
  lemma SeenClears(n: Node, t: nat, e: Event)
    requires Mim(n) && n.inter.mim == ChkIc && InSeen(n, e)
    ensures var i := n.Step(t, e).inter; i.mim == ChkIc && i.testCurr == 0 && i.testCurrMax == n.cfg.inTestMax - 1
  {
  }

  /** A reported loss opens the port at once. */
  lemma ReportedLossOpens(n: Node, t: nat, e: Event)
    requires Mim(n) && n.inter.mim == ChkIc && InReported(n, e, false)
    ensures var i := n.Step(t, e).inter; i.mim == ChkIo && i.port.state == Forwarding
  {
  }

  /** So does one miss more than the limit. */
  lemma MissedOpens(n: Node, t: nat)
    requires Mim(n) && n.inter.mim == ChkIc && n.inter.test.Armed? && n.inter.testCurr >= n.inter.testCurrMax
    ensures var i := n.Step(t, Expire(InTestT)).inter; i.mim == ChkIo && i.port.state == Forwarding
  {
  }

  /** The limit after an event: a reported link raises it. */
  function Limit(n: Node, e: Event): nat {
    if InReported(n, e, true) then n.cfg.inTestMax else n.inter.testCurrMax
  }

  lemma FrameStays(c: Config, i: Inter, t: nat, f: Pdu)
    requires InterInv(c, i) && i.role == MIM && i.mim == ChkIc
    requires !(f.InTest? && f.id == c.inId) && !(f.InLink? && !f.up && f.id == c.inId)
    ensures var j := i.Recv(c, t, f);
            && j.mim == ChkIc && j.testCurr == i.testCurr && j.test == i.test
            && j.testCurrMax == if f.InLink? && f.id == c.inId then c.inTestMax else i.testCurrMax
  {
  }

  /** Any other event keeps the port blocked, and only an expiry of the InTest timer counts as a miss. */
  lemma OthersStay(n: Node, t: nat, e: Event)
    requires Mim(n) && n.inter.mim == ChkIc && !InSeen(n, e) && !InReported(n, e, false) && !InLost(e)
    requires e == Expire(InTestT) && n.inter.test.Armed? ==> n.inter.testCurr < n.inter.testCurrMax
    ensures var i := n.Step(t, e).inter;
            && i.mim == ChkIc && i.testCurrMax == Limit(n, e)
            && i.testCurr == n.inter.testCurr + if e == Expire(InTestT) && n.inter.test.Armed? then 1 else 0
  {
    if n.Passes(e) {
      FrameStays(n.cfg, n.inter, t, e.pdu);
    }
  }

  /** An own InTest frame closes an open port. */
  lemma SeenCloses(n: Node, t: nat, e: Event)
    requires Mim(n) && n.inter.mim != ChkIc && InSeen(n, e)
    ensures var i := n.Step(t, e).inter; i.mim == ChkIc && i.port.state == Blocked && i.testCurr == 0
  {
  }

  /** A link that comes up starts observation with the port blocked; one that is lost ends it. */
  lemma LinkStarts(n: Node, t: nat, up: bool)
    requires Mim(n)
    ensures var i := n.Step(t, if n.cfg.inMode == RC then LinkChange(OnInter, up) else CfmChange(!up)).inter;
            && i.port.up == up && (!up ==> i.mim == MimAcStat1 && i.port.state == Blocked)
            && (up && n.inter.mim == MimAcStat1 ==> i.mim == ChkIc && i.port.state == Blocked)
            && (up && n.inter.mim == MimAcStat1 && n.cfg.inMode == RC ==> i.testCurr == 0 && i.test.Armed?)
            && (up && n.inter.mim != MimAcStat1 ==> i.mim == n.inter.mim && i.port.state == n.inter.port.state)
  {
    PortLinkKeeps(n.cfg, n.inter, t, up);
  }

  // ---- What a blocked port lets in

  /** At the blocked interconnection port a manager takes up its own InTest frames and reports with its id. */
  lemma BlockedPortHears(n: Node, t: nat, f: Pdu)
    requires Mim(n) && n.inter.mim == ChkIc
    ensures var m := n.Step(t, Receive(OnInter, f)).inter;
            && (f.InTest? && f.id == n.cfg.inId ==> m.mim == ChkIc && m.testCurr == 0)
            && (f.InLink? && f.id == n.cfg.inId && !f.up ==> m.mim == ChkIo && m.port.state == Forwarding)
            && (f.InLink? && f.id == n.cfg.inId && f.up ==> m.mim == ChkIc && m.testCurrMax == n.cfg.inTestMax)
  {
    if f.InTest? || f.InLink? {
      assert n.Passes(Receive(OnInter, f));
    }
  }

  /** It flushes when a topology change from elsewhere says so. */
  lemma BlockedPortFlushes(n: Node, t: nat, f: Pdu)
    requires Mim(n) && n.inter.mim == ChkIc && f.InTopo? && f.sa != n.cfg.mac
    ensures var e := Receive(OnInter, f);
            && n.Step(t, e).ring.clearFdb == Timer.Again(t, f.interval * 1000)
            && (f.interval == 0 ==> Flushed in n.Out(e))
  {
    var e := Receive(OnInter, f);
    assert n.Passes(e);
    MacEqualIsEquality(f.sa, n.cfg.mac);
    assert n.ProcessOut(f) == n.RecvInTopoOut(f.sa, f.interval);
  }

  /** All other frames are without effect there. */
  lemma BlockedPortDrops(n: Node, t: nat, f: Pdu)
    requires n.inter.present && n.inter.port.state == Blocked && !(f.InTest? || f.InLink? || f.InTopo?)
    ensures n.Step(t, Receive(OnInter, f)) == n && n.Out(Receive(OnInter, f)) == []
  {
  }

  /** A ring port takes up reports of interconnection links even if it is blocked. */
  lemma RingPortHears(n: Node, t: nat, x: RingPort, f: Pdu)
    requires Mim(n) && n.inter.mim == ChkIc && n.ring.Port(x).state != Disabled
    requires f.InLink? && f.id == n.cfg.inId && !f.up
    ensures var m := n.Step(t, Receive(OnRing(x), f)).inter; m.mim == ChkIo && m.port.state == Forwarding
  {
    assert n.Passes(Receive(OnRing(x), f));
  }

  /** InTest frames, polls and frames of unknown type are without effect at a blocked ring port. */
  lemma BlockedRingPortDrops(n: Node, t: nat, x: RingPort, f: Pdu)
    requires n.ring.Port(x).state == Blocked && (f.InTest? || f.InLinkStatus? || f.Unknown?)
    ensures n.Step(t, Receive(OnRing(x), f)) == n && n.Out(Receive(OnRing(x), f)) == []
  {
  }

  // ---- Staying closed

  ghost predicate InUnbroken(s: seq<Node>, es: seq<(nat, Event)>, k: nat) {
    && k <= |es| == |s| - 1
    && forall q :: 0 <= q < k ==> !InLost(es[q].1) && !InReported(s[q], es[q].1, false)
  }

  ghost predicate InSilent(s: seq<Node>, es: seq<(nat, Event)>, p: nat, q: nat) {
    p <= q <= |es| == |s| - 1 && forall i :: p <= i < q ==> !InSeen(s[i], es[i].1)
  }

  /** At most `inTestMax - 1` expiries of the InTest timer lie between own InTest frames. */
  ghost predicate InAnswered(s: seq<Node>, es: seq<(nat, Event)>, k: nat) {
    && k <= |es| == |s| - 1
    && forall p, q :: 0 <= p <= q <= k && InSilent(s, es, p, q) ==>
         Ticks(es, InTestT, q) - Ticks(es, InTestT, p) <= s[0].cfg.inTestMax - 1
  }

  ghost function InSince(s: seq<Node>, es: seq<(nat, Event)>, k: nat): (p: nat)
    requires k <= |es| == |s| - 1
    ensures InSilent(s, es, p, k)
  {
    if k == 0 then 0 else if InSeen(s[k - 1], es[k - 1].1) then k else InSince(s, es, k - 1)
  }

  lemma InAnsweredAt(s: seq<Node>, es: seq<(nat, Event)>, k: nat, p: nat, q: nat)
    requires InAnswered(s, es, k) && p <= q <= k && InSilent(s, es, p, q)
    ensures Ticks(es, InTestT, q) - Ticks(es, InTestT, p) <= s[0].cfg.inTestMax - 1
  {
  }

  lemma MimStep(n: Node, t: nat, e: Event)
    requires Mim(n)
    ensures Mim(n.Step(t, e)) && n.Step(t, e).cfg == n.cfg
  {
    InterInvKept(n.cfg, n.inter, t, e, n.Passes(e));
    RolesStay(n, t, e);
  }

  /** The port of an interconnection manager stays blocked as long as its InTest frames are answered in
      time, the own link holds and no loss is reported. */
  lemma {:induction false} InStaysClosed(s: seq<Node>, es: seq<(nat, Event)>, k: nat)
    requires IsRun(s, es) && InUnbroken(s, es, k) && InAnswered(s, es, k)
    requires Mim(s[0]) && s[0].inter.mim == ChkIc && s[0].inter.testCurr == 0
    ensures s[k].cfg == s[0].cfg && Mim(s[k]) && s[k].inter.mim == ChkIc && s[k].inter.port.state == Blocked
    ensures s[k].inter.testCurr <= Ticks(es, InTestT, k) - Ticks(es, InTestT, InSince(s, es, k))
  {
    if k > 0 {
      InStaysClosed(s, es, k - 1);
      var n, e := s[k - 1], es[k - 1];
      assert s[k - 1 + 1] == n.Step(e.0, e.1) && !InLost(e.1) && !InReported(n, e.1, false);
      MimStep(n, e.0, e.1);
      if InSeen(n, e.1) {
        SeenClears(n, e.0, e.1);
      } else {
        InAnsweredAt(s, es, k, InSince(s, es, k), k);
        OthersStay(n, e.0, e.1);
      }
    }
  }

  // ---- Opening

  /** Neither an own InTest frame nor a loss of the own link, nor a report if `exact`. */
  predicate Quiet(n: Node, e: Event, exact: bool) {
    && !InSeen(n, e) && !InLost(e)
    && (exact ==> !InReported(n, e, true) && !InReported(n, e, false))
  }

  ghost predicate AllQuiet(s: seq<Node>, es: seq<(nat, Event)>, k: nat, exact: bool) {
    k <= |es| == |s| - 1 && forall q :: 0 <= q < k ==> Quiet(s[q], es[q].1, exact)
  }

  /** The misses that are left before the port opens. */
  function Chances(n: Node): nat
    requires n.inter.testCurr <= n.inter.testCurrMax
  {
    n.inter.testCurrMax - n.inter.testCurr
  }

  lemma {:induction false} InCounts(s: seq<Node>, es: seq<(nat, Event)>, k: nat)
    requires IsRun(s, es) && AllQuiet(s, es, k, true)
    requires Mim(s[0]) && s[0].cfg.inMode == RC && s[0].inter.mim == ChkIc
    requires Ticks(es, InTestT, k) <= Chances(s[0])
    ensures s[k].cfg == s[0].cfg && Mim(s[k]) && s[k].inter.mim == ChkIc
    ensures s[k].inter.testCurrMax == s[0].inter.testCurrMax
    ensures s[k].inter.testCurr == s[0].inter.testCurr + Ticks(es, InTestT, k)
  {
    if k > 0 {
      InCounts(s, es, k - 1);
      var n, e := s[k - 1], es[k - 1];
      assert s[k - 1 + 1] == n.Step(e.0, e.1) && Quiet(n, e.1, true);
      MimStep(n, e.0, e.1);
      OthersStay(n, e.0, e.1);
    }
  }

  /** Without any of these, exactly the expiry after as many others as there are chances left opens the
      port; up to it the port is blocked. */
  lemma InOpens(s: seq<Node>, es: seq<(nat, Event)>, k: nat)
    requires IsRun(s, es) && k < |es| && AllQuiet(s, es, k, true) && es[k].1 == Expire(InTestT)
    requires Mim(s[0]) && s[0].cfg.inMode == RC && s[0].inter.mim == ChkIc
    requires Ticks(es, InTestT, k) == Chances(s[0])
    ensures s[k].inter.mim == ChkIc && s[k].inter.port.state == Blocked
    ensures s[k + 1].inter.mim == ChkIo && s[k + 1].inter.port.state == Forwarding
  {
    InCounts(s, es, k);
    assert s[k + 1] == s[k].Step(es[k].0, es[k].1);
    MissedOpens(s[k], es[k].0);
  }

  lemma QuietStep(n: Node, t: nat, e: Event)
    requires Mim(n) && n.cfg.inMode == RC && n.inter.mim == ChkIc && Quiet(n, e, false)
    ensures var i := n.Step(t, e).inter;
            || i.mim == ChkIo
            || (i.mim == ChkIc && i.testCurr == n.inter.testCurr + if e == Expire(InTestT) then 1 else 0)
  {
    if InReported(n, e, false) {
      ReportedLossOpens(n, t, e);
    } else if e == Expire(InTestT) && n.inter.testCurr >= n.inter.testCurrMax {
      MissedOpens(n, t);
    } else {
      OthersStay(n, t, e);
    }
  }

  lemma {:induction false} InWaits(s: seq<Node>, es: seq<(nat, Event)>, k: nat)
    requires IsRun(s, es) && AllQuiet(s, es, k, false)
    requires Mim(s[0]) && s[0].cfg.inMode == RC && s[0].inter.mim == ChkIc
    requires forall j :: 0 <= j <= k ==> s[j].inter.mim != ChkIo
    ensures s[k].cfg == s[0].cfg && Mim(s[k]) && s[k].inter.mim == ChkIc
    ensures s[k].inter.testCurr == s[0].inter.testCurr + Ticks(es, InTestT, k)
  {
    if k > 0 {
      InWaits(s, es, k - 1);
      var n, e := s[k - 1], es[k - 1];
      assert s[k - 1 + 1] == n.Step(e.0, e.1) && Quiet(n, e.1, false);
      MimStep(n, e.0, e.1);
      QuietStep(n, e.0, e.1);
    }
  }

  /** Whatever else is received, reports of links that raise the limit included: after `inTestMax + 1`
      expiries without an own InTest frame the port has been opened. */
  lemma InOpensInTime(s: seq<Node>, es: seq<(nat, Event)>, k: nat)
    requires IsRun(s, es) && AllQuiet(s, es, k, false)
    requires Mim(s[0]) && s[0].cfg.inMode == RC && s[0].inter.mim == ChkIc
    requires Ticks(es, InTestT, k) > s[0].cfg.inTestMax
    ensures exists j :: 0 <= j <= k && s[j].inter.mim == ChkIo
  {
    if forall j :: 0 <= j <= k ==> s[j].inter.mim != ChkIo {
      InWaits(s, es, k);
      assert false;
    }
  }

  // ---- On a clock

  /** The InTest timer of a manager with a link is due within one interval. */
  predicate InNear(c: Config, i: Inter, now: nat) {
    i.mim != MimAcStat1 ==> i.test.Armed? && i.test.due <= now + c.inTestInterval
  }

  lemma InNearFrame(c: Config, i: Inter, now: nat, t: nat, f: Pdu)
    requires InterInv(c, i) && i.role == MIM && c.inMode == RC && InNear(c, i, now) && now <= t
    ensures InNear(c, i.Recv(c, t, f), t)
  {
  }

  lemma InNearKept(n: Node, now: nat, t: nat, e: Event)
    requires Mim(n) && n.cfg.inMode == RC && InNear(n.cfg, n.inter, now) && now <= t
    ensures InNear(n.cfg, n.Step(t, e).inter, t)
  {
    if n.Passes(e) {
      InNearFrame(n.cfg, n.inter, now, t, e.pdu);
    }
  }

  /** Time does not go back, and no event overtakes an expired InTest timer. */
  ghost predicate InTimedRun(s: seq<Node>, es: seq<(nat, Event)>, t: nat) {
    && IsRun(s, es)
    && forall k :: 0 <= k < |es| ==>
         At(t, es, k) <= es[k].0 && (s[k].inter.test.Armed? ==> es[k].0 <= s[k].inter.test.due)
  }

  lemma InNearStep(n: Node, now: nat, t: nat, e: Event)
    requires Mim(n) && n.cfg.inMode == RC && InNear(n.cfg, n.inter, now) && now <= t
    ensures var n' := n.Step(t, e); n'.cfg == n.cfg && Mim(n') && InNear(n.cfg, n'.inter, t)
  {
    MimStep(n, t, e);
    InNearKept(n, now, t, e);
  }

  /** So it is in every state of a run that starts so, as every run from `mrp_add` does. */
  lemma {:induction false} InNearRun(s: seq<Node>, es: seq<(nat, Event)>, t: nat, k: nat)
    requires InTimedRun(s, es, t) && k < |s|
    requires Mim(s[0]) && s[0].cfg.inMode == RC && InNear(s[0].cfg, s[0].inter, t)
    ensures s[k].cfg == s[0].cfg && Mim(s[k]) && InNear(s[k].cfg, s[k].inter, At(t, es, k))
  {
    if k > 0 {
      InNearRun(s, es, t, k - 1);
      var n, e := s[k - 1], es[k - 1];
      assert s[k - 1 + 1] == n.Step(e.0, e.1) && At(t, es, k - 1) <= e.0;
      InNearStep(n, At(t, es, k - 1), e.0, e.1);
    }
  }

  lemma InNearAdded(c: Config, w: WantedRole, up: Links, t: nat)
    requires c.inMode == RC
    ensures var n := Added(c, w, MIM, true, up, t); n.cfg == c && Mim(n) && InNear(c, n.inter, t)
  {
    AnyInterAdded(c, w, MIM, true, up, t);
    AddedRole(c, w, MIM, true, up, t);
    var n0 := Node(c, RoleSet(c, CreatedRing(c), w), CreatedInter(c, true, t));
    var n1 := if up.a then n0.Step(t, LinkChange(OnRing(PortA), true)) else n0;
    assert n1.inter == n0.inter;
    var n2 := WithRing(c, w, true, up, t);
    assert n2.inter == n0.inter && n2.cfg == c;
  }

  /** An instant by which the port will have been opened. */
  function InDeadline(c: Config, i: Inter): int
    requires i.test.Armed?
  {
    i.test.due + (c.inTestMax - i.testCurr) * c.inTestInterval
  }

  lemma MissUsed(max: nat, curr: nat, k: nat)
    requires curr < max
    ensures (max - (curr + 1)) * k + k == (max - curr) * k
  {
    MulSucc(max - curr - 1, k);
  }

  lemma ExpiryRearms(c: Config, i: Inter, t: nat)
    requires i.mim == ChkIc && i.test.Armed?
    ensures i.Expire(c, t, InTestT).test == Armed(c.inTestInterval, t + c.inTestInterval)
  {
  }

  lemma OthersKeepTimer(n: Node, t: nat, e: Event)
    requires Mim(n) && n.cfg.inMode == RC && n.inter.mim == ChkIc && !InLost(e) && e != Expire(InTestT)
    ensures n.Step(t, e).inter.test == n.inter.test
  {
    if n.Passes(e) && !InSeen(n, e) && !InReported(n, e, false) {
      FrameStays(n.cfg, n.inter, t, e.pdu);
    }
  }

  lemma InDeadlineKept(n: Node, t: nat, e: Event)
    requires Mim(n) && n.cfg.inMode == RC && n.inter.mim == ChkIc && t <= n.inter.test.due && Quiet(n, e, false)
    requires n.Step(t, e).inter.mim == ChkIc
    ensures var i := n.Step(t, e).inter;
            i.test.Armed? && InDeadline(n.cfg, i) <= InDeadline(n.cfg, n.inter)
  {
    MimStep(n, t, e);
    QuietStep(n, t, e);
    if e == Expire(InTestT) {
      ExpiryRearms(n.cfg, n.inter, t);
      MissUsed(n.cfg.inTestMax, n.inter.testCurr, n.cfg.inTestInterval);
    } else {
      OthersKeepTimer(n, t, e);
    }
  }

  lemma {:induction false} InDeadlineRun(s: seq<Node>, es: seq<(nat, Event)>, t: nat, k: nat)
    requires InTimedRun(s, es, t) && AllQuiet(s, es, k, false)
    requires Mim(s[0]) && s[0].cfg.inMode == RC && forall j :: 0 <= j <= k ==> s[j].inter.mim == ChkIc
    ensures s[k].cfg == s[0].cfg && Mim(s[k])
    ensures InDeadline(s[0].cfg, s[k].inter) <= InDeadline(s[0].cfg, s[0].inter)
  {
    if k > 0 {
      InDeadlineRun(s, es, t, k - 1);
      var n, e := s[k - 1], es[k - 1];
      assert s[k - 1 + 1] == n.Step(e.0, e.1) && Quiet(n, e.1, false) && e.0 <= n.inter.test.due;
      MimStep(n, e.0, e.1);
      InDeadlineKept(n, e.0, e.1);
    }
  }

  lemma DeadlineFar(c: Config, i: Inter, now: nat)
    requires InterInv(c, i) && i.role == MIM && c.inMode == RC && i.mim == ChkIc && InNear(c, i, now)
    ensures i.test.due <= InDeadline(c, i) <= now + (c.inTestMax + 1) * c.inTestInterval
  {
    MulSplit(i.testCurr, c.inTestMax, c.inTestInterval);
    MulSucc(c.inTestMax, c.inTestInterval);
  }

  lemma DueByDeadline(c: Config, i: Inter)
    requires InterInv(c, i) && i.role == MIM && c.inMode == RC && i.mim == ChkIc
    ensures i.test.Armed? && i.test.due <= InDeadline(c, i)
  {
    MulSplit(i.testCurr, c.inTestMax, c.inTestInterval);
  }

  lemma ClosedByDeadline(s: seq<Node>, es: seq<(nat, Event)>, t: nat, k: nat)
    requires InTimedRun(s, es, t) && k < |es| && AllQuiet(s, es, k, false)
    requires Mim(s[0]) && s[0].cfg.inMode == RC && forall j :: 0 <= j <= k ==> s[j].inter.mim == ChkIc
    ensures s[0].inter.test.Armed? && es[k].0 <= InDeadline(s[0].cfg, s[0].inter)
  {
    InDeadlineRun(s, es, t, k);
    DueByDeadline(s[k].cfg, s[k].inter);
    assert s[k].inter.test.Armed? ==> es[k].0 <= s[k].inter.test.due;
  }

  /** While the port stays blocked without an own InTest frame, every event comes within
      `inTestMax + 1` intervals; later than that the port has been opened. */
  lemma InDetectionBound(s: seq<Node>, es: seq<(nat, Event)>, t: nat, k: nat)
    requires InTimedRun(s, es, t) && k < |es| && AllQuiet(s, es, k, false)
    requires Mim(s[0]) && s[0].cfg.inMode == RC && s[0].inter.mim == ChkIc && InNear(s[0].cfg, s[0].inter, t)
    requires es[k].0 > t + (s[0].cfg.inTestMax + 1) * s[0].cfg.inTestInterval
    ensures exists j :: 0 <= j <= k && s[j].inter.mim != ChkIc
  {
    if forall j :: 0 <= j <= k ==> s[j].inter.mim == ChkIc {
      ClosedByDeadline(s, es, t, k);
      DeadlineFar(s[0].cfg, s[0].inter, t);
      assert false;
    }
  }

  /** Both interconnection profiles, unscaled, detect a loss within the time they are named after. */
  lemma InProfileBounds(mac: Mac, prio: u16, react: bool, recv: u8, inRecv: u8)
    requires recv < 4 && inRecv < 2
    ensures var c := Configured(mac, prio, 0, false, react, RC, recv, inRecv, 1);
            (c.inTestMax + 1) * c.inTestInterval < [500000, 200000][inRecv]
  {
  }
}
