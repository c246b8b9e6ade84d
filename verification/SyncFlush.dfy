/** The topology-change burst of a manager makes every listening client flush its
    forwarding database at the instant the manager flushes its own. */
module SyncFlush {
  import opened MrpTypes
  import opened Arithmetic
  import opened EtherAddr
  import opened MrpRing
  import opened MrpNode
  import opened MrpSetup
  import opened MrmInvariants
  import opened MrcInvariants

  // ---- The manager's side

  /** The frame that announces that `left` more intervals will pass before the manager flushes. */
  function BurstFrame(c: Config, left: nat): Pdu {
    Topo(c.prio, c.mac, WireMs(U32(left * c.topoInterval)))
  }

  /** The instant of the announcement with `left` intervals to go, in a burst that began at `t` and flushes
      after `span` intervals. A full burst has `topoMax`. */
  function SentAt(c: Config, t: nat, span: nat, left: nat): nat
    requires left <= span
  {
    t + (span - left) * c.topoInterval
  }

  /** The instant the manager flushes. */
  function FlushInstant(c: Config, t: nat, span: nat): nat { t + span * c.topoInterval }

  /** A burst was started at `t`: the timer is armed and the counter is full. */
  predicate BurstBegun(n: Node, t: nat) {
    MrmInv(n.cfg, n.ring) && Full(n.cfg, n.ring, t) && Awaits(n.cfg, n.ring, t, n.cfg.topoMax, n.cfg.topoMax - 1)
  }

  predicate Full(c: Config, r: Ring, t: nat) {
    r.topo == Armed(c.topoInterval, t + c.topoInterval) && r.topoCurrMax == c.topoMax - 1
  }

  /** The outputs announce a whole burst on both ring ports as they are after the step. */
  predicate Announced(c: Config, r: Ring, os: seq<Output>) {
    var f := BurstFrame(c, c.topoMax);
    && Sent(OnRing(r.primary), r.p.up, f) in os
    && Sent(OnRing(r.primary.Other()), r.s.up, f) in os
  }

  predicate Starts(c: Config, r: Ring, t: nat, os: seq<Output>) {
    r.topo.Armed? ==> Full(c, r, t) && Announced(c, r, os)
  }

  lemma LinkStarts(n: Node, t: nat, x: RingPort, up: bool)
    requires MrmInv(n.cfg, n.ring) && n.ring.topo.Idle?
    ensures Starts(n.cfg, n.ring.LinkChange(n.cfg, t, x, up), t, n.RingLinkOut(x, up))
  {
    if !up && x == n.ring.primary && (n.ring.mrm == ChkRo || n.ring.mrm == ChkRc) {
      LinkRearms(n, t);
    } else {
      LinkLeaves(n.cfg, n.ring, t, x, up);
    }
  }

  lemma FrameStarts(n: Node, t: nat, f: Pdu)
    requires MrmInv(n.cfg, n.ring) && n.inter.role != MIM && n.ring.topo.Idle? && !f.InTopo?
    ensures Starts(n.cfg, n.ring.Recv(n.cfg, t, n.inter.role, f), t, n.ProcessOut(f))
  {
    if f.Test? && MacEqual(f.sa, n.cfg.mac) && n.ring.mrm == ChkRo && !n.cfg.react {
      FrameRearms(n, t, f);
    } else {
      FrameLeaves(n.cfg, n.ring, n.inter.role, t, f);
    }
  }

  lemma ExpiryStarts(n: Node, t: nat, id: TimerId)
    requires MrmInv(n.cfg, n.ring) && n.ring.topo.Idle?
    ensures Starts(n.cfg, n.ring.Expire(n.cfg, t, id), t, n.ExpireOut(id))
  {
  }

  /** A fixed-role manager that starts announcing, other than on behalf of an interconnect
      topology change, starts a full burst and announces `topoMax` intervals on both ring ports. */
  lemma BurstStarts(n: Node, t: nat, e: Event)
    requires FixedMrm(n.cfg, n.ring, n.inter) && n.ring.topo.Idle?
    requires !(e.Receive? && e.pdu.InTopo?)
    requires n.Step(t, e).ring.topo.Armed?
    ensures BurstBegun(n.Step(t, e), t) && Announced(n.cfg, n.Step(t, e).ring, n.Out(e))
  {
    MrmInvKept(n.cfg, n.ring, n.inter.role, t, e, n.Passes(e));
    FullAwaits(n.cfg, n.Step(t, e).ring, t);
    match e {
      case LinkChange(OnRing(x), up) => LinkStarts(n, t, x, up);
      case Receive(_, f) => FrameStarts(n, t, f);
      case Expire(id) => ExpiryStarts(n, t, id);
      case _ =>
    }
  }

  /** The frame that a manager sends on behalf of an interconnect topology change of `ms` milliseconds. */
  function InTopoFrame(c: Config, ms: u16): Pdu {
    Topo(c.prio, c.mac, WireMs(U32(ms * 1000 * c.topoMax)))
  }

  /** An InTopologyChange frame with a nonzero interval starts a full burst, too, but the first
      announcement is the frame's interval times `topoMax` instead of the manager's own. */
  lemma InTopoStarts(n: Node, t: nat, e: Event)
    requires FixedMrm(n.cfg, n.ring, n.inter) && n.ring.topo.Idle?
    requires e.Receive? && e.port.OnRing? && e.pdu.InTopo? && e.pdu.interval != 0
    ensures BurstBegun(n.Step(t, e), t)
    ensures var f := InTopoFrame(n.cfg, e.pdu.interval);
            n.Send(n.PRef(), f) in n.Out(e) && n.Send(n.SRef(), f) in n.Out(e)
  {
    assert n.Passes(e);
    MrmInvKept(n.cfg, n.ring, n.inter.role, t, e, true);
    FullAwaits(n.cfg, n.Step(t, e).ring, t);
    var us := e.pdu.interval * 1000;
    assert n.TopoBurst(us)[0] in n.ProcessOut(e.pdu) && n.TopoBurst(us)[1] in n.ProcessOut(e.pdu);
  }

  /** That announcement makes clients flush in the last millisecond before the manager exactly if the two
      intervals agree up to the millisecond. */
  lemma InTopoAnnounces(c: Config, t: nat, ms: u16)
    requires ms * c.topoMax < 65536
    ensures var d := t + InTopoFrame(c, ms).interval * 1000;
            d <= FlushInstant(c, t, c.topoMax) < d + 1000 <==> ms * c.topoMax == c.topoMax * c.topoInterval / 1000
  {
    assert ms * 1000 * c.topoMax == ms * c.topoMax * 1000;
    assert InTopoFrame(c, ms).interval == ms * c.topoMax;
  }

  // ---- The burst, with anything else happening in between

  /** The events that arm a running topology timer anew: the primary link is lost, the ring turns out to
      be closed, or too many test frames were missed. */
  predicate Rearms(n: Node, e: Event) {
    || (e == LinkChange(n.PRef(), false) && (n.ring.mrm == ChkRo || n.ring.mrm == ChkRc))
    || (n.Passes(e) && e.pdu.Test? && MacEqual(e.pdu.sa, n.cfg.mac) && n.ring.mrm == ChkRo && !n.cfg.react)
    || (e == Expire(RingTestT) && n.ring.mrm == ChkRc && n.ring.testCurr >= n.ring.testCurrMax)
  }

  predicate SameTopo(r: Ring, r': Ring) { r'.topo == r.topo && r'.topoCurrMax == r.topoCurrMax }

  lemma LinkLeaves(c: Config, r: Ring, t: nat, x: RingPort, up: bool)
    requires MrmInv(c, r)
    requires !(!up && x == r.primary && (r.mrm == ChkRo || r.mrm == ChkRc))
    ensures SameTopo(r, r.LinkChange(c, t, x, up))
  {
  }

  lemma FrameLeaves(c: Config, r: Ring, i: InRole, t: nat, f: Pdu)
    requires MrmInv(c, r) && i != MIM && (r.topo.Armed? || !f.InTopo?)
    requires !(f.Test? && MacEqual(f.sa, c.mac) && r.mrm == ChkRo && !c.react)
    ensures SameTopo(r, r.Recv(c, t, i, f))
  {
  }

  lemma ExpiryLeaves(c: Config, r: Ring, t: nat, id: TimerId)
    requires MrmInv(c, r) && id != RingTopoT
    requires !(id == RingTestT && r.mrm == ChkRc && r.testCurr >= r.testCurrMax)
    ensures SameTopo(r, r.Expire(c, t, id))
  {
  }

  /** No other event touches a running topology timer or its counter. */
  lemma OthersLeave(n: Node, t: nat, e: Event)
    requires FixedMrm(n.cfg, n.ring, n.inter) && n.ring.topo.Armed?
    requires !Rearms(n, e) && e != Expire(RingTopoT)
    ensures SameTopo(n.ring, n.Step(t, e).ring)
  {
    match e {
      case LinkChange(OnRing(x), up) => LinkLeaves(n.cfg, n.ring, t, x, up);
      case Receive(_, f) => if n.Passes(e) { FrameLeaves(n.cfg, n.ring, n.inter.role, t, f); }
      case Expire(id) => ExpiryLeaves(n.cfg, n.ring, t, id);
      case _ =>
    }
  }

  /** `span` intervals after `t` the manager will flush, and the next expiry of its topology timer is the one
      with `left` intervals to go. */
  predicate Awaits(c: Config, r: Ring, t: nat, span: nat, left: nat) {
    left < span && r.topoCurrMax == left && r.topo == Armed(c.topoInterval, SentAt(c, t, span, left))
  }

  lemma FullAwaits(c: Config, r: Ring, t: nat)
    ensures Full(c, r, t) ==> Awaits(c, r, t, c.topoMax, c.topoMax - 1)
  {
  }

  lemma OneExpiry(c: Config, r: Ring, t: nat, span: nat, left: nat)
    requires Awaits(c, r, t, span, left)
    ensures var r' := r.Expire(c, SentAt(c, t, span, left), RingTopoT);
            if left > 0 then Awaits(c, r', t, span, left - 1)
            else r'.topo.Idle? && !r'.topoRunning && r'.topoCurrMax == c.topoMax - 1
  {
    MulSucc(span - left, c.topoInterval);
  }

  /** What an expiry of the topology timer sends with `left` intervals to go. */
  lemma BurstOut(m: Node, left: nat)
    requires m.ring.topo.Armed? && m.ring.topoCurrMax == left
    ensures m.Out(Expire(RingTopoT)) == (if left > 0 then [] else [Flushed]) + m.SendRing(BurstFrame(m.cfg, left))
  {
  }

  /** The first `k` events re-arm nothing, and expiries of the topology timer come when it is due. */
  ghost predicate Uninterrupted(s: seq<Node>, es: seq<(nat, Event)>, k: nat) {
    && k <= |es| == |s| - 1
    && forall q :: 0 <= q < k ==> Punctual(s[q], es[q].0, es[q].1)
  }

  predicate Punctual(n: Node, t: nat, e: Event) {
    !Rearms(n, e) && (e == Expire(RingTopoT) && n.ring.topo.Armed? ==> t == n.ring.topo.due)
  }

  lemma BurstStep(n: Node, t0: nat, e: Event, t: nat, span: nat, left: nat)
    requires FixedMrm(n.cfg, n.ring, n.inter) && Awaits(n.cfg, n.ring, t, span, left) && Punctual(n, t0, e)
    requires left > 0 || e != Expire(RingTopoT)
    ensures var n' := n.Step(t0, e);
            && n'.cfg == n.cfg && FixedMrm(n.cfg, n'.ring, n'.inter)
            && Awaits(n.cfg, n'.ring, t, span, if e == Expire(RingTopoT) then left - 1 else left)
  {
    MrmInvKept(n.cfg, n.ring, n.inter.role, t0, e, n.Passes(e));
    RolesStay(n, t0, e);
    if e == Expire(RingTopoT) {
      OneExpiry(n.cfg, n.ring, t, span, left);
    } else {
      OthersLeave(n, t0, e);
    }
  }

  /** Whatever else happens to a manager that will flush `span` intervals after `t`, if nothing re-arms its
      timer: after `j` expiries of the timer the next one is due after `j + 1` intervals and counts `j` less. */
  lemma {:induction false} BurstProgress(s: seq<Node>, es: seq<(nat, Event)>, t: nat, span: nat, k: nat)
    requires IsRun(s, es) && Uninterrupted(s, es, k)
    requires FixedMrm(s[0].cfg, s[0].ring, s[0].inter) && span > 0 && Awaits(s[0].cfg, s[0].ring, t, span, span - 1)
    requires Ticks(es, RingTopoT, k) < span
    ensures s[k].cfg == s[0].cfg && FixedMrm(s[k].cfg, s[k].ring, s[k].inter)
    ensures Awaits(s[0].cfg, s[k].ring, t, span, span - 1 - Ticks(es, RingTopoT, k))
  {
    if k > 0 {
      BurstProgress(s, es, t, span, k - 1);
      var n, e := s[k - 1], es[k - 1];
      assert Punctual(n, e.0, e.1) && s[k - 1 + 1] == n.Step(e.0, e.1);
      BurstStep(n, e.0, e.1, t, span, span - 1 - Ticks(es, RingTopoT, k - 1));
    }
  }

  /** The expiry with `left` intervals to go comes at the instant for it. */
  lemma BurstInstant(s: seq<Node>, es: seq<(nat, Event)>, t: nat, span: nat, k: nat, left: nat)
    requires IsRun(s, es) && k < |es| && Uninterrupted(s, es, k + 1) && es[k].1 == Expire(RingTopoT)
    requires FixedMrm(s[0].cfg, s[0].ring, s[0].inter) && span > 0
    requires Awaits(s[0].cfg, s[0].ring, t, span, span - 1) && Ticks(es, RingTopoT, k) + 1 + left == span
    ensures es[k].0 == SentAt(s[0].cfg, t, span, left)
  {
    BurstProgress(s, es, t, span, k);
    assert Punctual(s[k], es[k].0, es[k].1);
    assert Awaits(s[0].cfg, s[k].ring, t, span, left);
  }

  /** It sends the announcement of that many intervals on both ring ports; the last one flushes at the
      flush instant and stops the timer with a full counter. */
  lemma BurstFrames(s: seq<Node>, es: seq<(nat, Event)>, t: nat, span: nat, k: nat, left: nat)
    requires IsRun(s, es) && k < |es| && Uninterrupted(s, es, k + 1) && es[k].1 == Expire(RingTopoT)
    requires FixedMrm(s[0].cfg, s[0].ring, s[0].inter) && span > 0
    requires Awaits(s[0].cfg, s[0].ring, t, span, span - 1) && Ticks(es, RingTopoT, k) + 1 + left == span
    ensures var c := s[0].cfg;
            && s[k].Out(es[k].1) == (if left > 0 then [] else [Flushed]) + s[k].SendRing(BurstFrame(c, left))
            && (left == 0 ==> es[k].0 == FlushInstant(c, t, span) && s[k + 1].ring.topo.Idle? &&
                              s[k + 1].ring.topoCurrMax == c.topoMax - 1)
  {
    BurstProgress(s, es, t, span, k);
    BurstInstant(s, es, t, span, k, left);
    assert s[k + 1] == s[k].Step(es[k].0, es[k].1);
    assert Awaits(s[0].cfg, s[k].ring, t, span, left);
    BurstOut(s[k], left);
    OneExpiry(s[0].cfg, s[k].ring, t, span, left);
  }

  // ---- Arming a running timer anew

  predicate Rearmed(c: Config, r: Ring, r': Ring, t: nat, os: seq<Output>) {
    && r'.topo == Armed(c.topoInterval, t + c.topoInterval) && r'.topoCurrMax == r.topoCurrMax
    && Announced(c, r', os)
  }

  /** A manager that has just made the other port its primary announces on the ports as they are now. */
  lemma FailoverRearms(q: Node, t: nat)
    ensures Rearmed(q.cfg, q.ring, q.ring.MrmFailover(q.cfg, t), t, q.TopoBurst(q.cfg.topoInterval))
  {
    var two := q.TopoFrames(U32(q.cfg.topoInterval * q.cfg.topoMax));
    assert two[0] in two && two[1] in two;
  }

  lemma LinkRearms(n: Node, t: nat)
    requires MrmInv(n.cfg, n.ring) && (n.ring.mrm == ChkRo || n.ring.mrm == ChkRc)
    ensures Rearmed(n.cfg, n.ring, n.ring.LinkChange(n.cfg, t, n.ring.primary, false), t,
                    n.RingLinkOut(n.ring.primary, false))
  {
    var q := n.(ring := n.ring.SetOper(n.ring.primary, false).Swap());
    FailoverRearms(q, t);
    assert n.RingLinkOut(n.ring.primary, false) == q.TestFrames() + q.TopoBurst(n.cfg.topoInterval);
    assert n.ring.LinkChange(n.cfg, t, n.ring.primary, false) == q.ring.MrmFailover(n.cfg, t);
  }

  lemma FrameRearms(n: Node, t: nat, f: Pdu)
    requires MrmInv(n.cfg, n.ring) && f.Test? && MacEqual(f.sa, n.cfg.mac) && n.ring.mrm == ChkRo && !n.cfg.react
    ensures Rearmed(n.cfg, n.ring, n.ring.Recv(n.cfg, t, n.inter.role, f), t, n.ProcessOut(f))
  {
  }

  lemma ExpiryRearms(n: Node, t: nat)
    requires MrmInv(n.cfg, n.ring) && n.ring.mrm == ChkRc && n.ring.testCurr >= n.ring.testCurrMax
    ensures Rearmed(n.cfg, n.ring, n.ring.Expire(n.cfg, t, RingTestT), t, n.ExpireOut(RingTestT))
  {
  }

  /** Such an event announces `topoMax` intervals again but does not refill the counter: the manager will
      flush after one interval more than the counter says. */
  lemma RearmAnnounces(n: Node, t: nat, e: Event)
    requires FixedMrm(n.cfg, n.ring, n.inter) && Rearms(n, e)
    ensures var r := n.Step(t, e).ring;
            && Announced(n.cfg, r, n.Out(e))
            && Awaits(n.cfg, r, t, n.ring.topoCurrMax + 1, n.ring.topoCurrMax)
  {
    match e {
      case LinkChange(_, _) => LinkRearms(n, t);
      case Receive(_, f) => FrameRearms(n, t, f);
      case Expire(_) => ExpiryRearms(n, t);
    }
  }

  /** The renewed announcement names the last millisecond before the manager's flush exactly if the counter
      was full, up to what the millisecond field can tell. */
  lemma RearmedInstant(c: Config, t: nat, curr: nat)
    requires curr < c.topoMax && c.topoMax * c.topoInterval < 65536000
    ensures var d := t + BurstFrame(c, c.topoMax).interval * 1000;
            && (d <= FlushInstant(c, t, curr + 1) < d + 1000 <==>
                c.topoMax * c.topoInterval / 1000 == (curr + 1) * c.topoInterval / 1000)
            && (c.topoInterval >= 1000 ==>
                  (d <= FlushInstant(c, t, curr + 1) < d + 1000 <==> curr == c.topoMax - 1))
  {
    MulSplit(curr + 1, c.topoMax, c.topoInterval);
    if curr < c.topoMax - 1 {
      MulSplit(1, c.topoMax - curr - 1, c.topoInterval);
    }
  }

  lemma LosesPrimary(c: Config, r: Ring, t: nat)
    requires MrmInv(c, r) && r.mrm == ChkRc
    ensures var r' := r.LinkChange(c, t, r.primary, false);
            && r'.mrm == PrmUp && r'.primary == r.primary.Other()
            && r'.topo == Armed(c.topoInterval, t + c.topoInterval) && r'.topoCurrMax == r.topoCurrMax
  {
  }

  lemma AnnouncesOnce(c: Config, r: Ring, t: nat)
    requires r.topo.Armed? && r.topoCurrMax > 0
    ensures var r' := r.Expire(c, t, RingTopoT);
            r'.mrm == r.mrm && r'.primary == r.primary && r'.topoCurrMax == r.topoCurrMax - 1
  {
  }

  lemma GainsSecondary(c: Config, r: Ring, t: nat)
    requires MrmInv(c, r) && r.mrm == PrmUp
    ensures var r' := r.LinkChange(c, t, r.primary.Other(), true);
            r'.mrm == ChkRc && r'.primary == r.primary && SameTopo(r, r')
  {
  }

  /** The ring half of a manager whose primary link is lost and comes back one interval later. */
  function LostAndBack(c: Config, r: Ring, t: nat): Ring {
    r.LinkChange(c, t, r.primary, false).Expire(c, t + c.topoInterval, RingTopoT)
     .LinkChange(c, t + c.topoInterval, r.primary, true)
  }

  lemma LostAndBackRearms(c: Config, r: Ring, t: nat)
    requires MrmInv(c, r) && r.mrm == ChkRc && r.topo.Idle? && c.topoMax > 1
    ensures var r' := LostAndBack(c, r, t); r'.mrm == ChkRc && r'.topoCurrMax == c.topoMax - 2
  {
    var r1 := r.LinkChange(c, t, r.primary, false);
    LosesPrimary(c, r, t);
    LinkKeeps(c, r, t, r.primary, false);
    AnnouncesOnce(c, r1, t + c.topoInterval);
    MrmInvariants.ExpireKeeps(c, r1, t + c.topoInterval, RingTopoT);
    GainsSecondary(c, r1.Expire(c, t + c.topoInterval, RingTopoT), t + c.topoInterval);
  }

  lemma RingEventStep(n: Node, t: nat, x: RingPort, up: bool)
    ensures n.Step(t, LinkChange(OnRing(x), up)) == n.(ring := n.ring.LinkChange(n.cfg, t, x, up))
    ensures n.Step(t, Expire(RingTopoT)) == n.(ring := n.ring.Expire(n.cfg, t, RingTopoT))
  {
  }

  /** From any manager that has closed its ring, a link that is lost and comes back within a burst leads to
      a state in which the loss of the other link re-arms the timer with a counter that is not full. */
  lemma RearmReachable(n: Node, t: nat) returns (es: seq<(nat, Event)>, s: seq<Node>)
    requires FixedMrm(n.cfg, n.ring, n.inter) && n.ring.mrm == ChkRc && n.ring.topo.Idle? && n.cfg.topoMax > 1
    ensures IsRun(s, es) && s[0] == n && |es| == 3
    ensures Rearms(s[3], LinkChange(s[3].PRef(), false)) && s[3].ring.topoCurrMax == n.cfg.topoMax - 2
  {
    var x, u := n.ring.primary, t + n.cfg.topoInterval;
    var n1 := n.Step(t, LinkChange(OnRing(x), false));
    var n2 := n1.Step(u, Expire(RingTopoT));
    var n3 := n2.Step(u, LinkChange(OnRing(x), true));
    RingEventStep(n, t, x, false);
    RingEventStep(n1, u, x, true);
    RingEventStep(n2, u, x, true);
    LostAndBackRearms(n.cfg, n.ring, t);
    es := [(t, LinkChange(OnRing(x), false)), (u, Expire(RingTopoT)), (u, LinkChange(OnRing(x), true))];
    s := [n, n1, n2, n3];
  }

  // ---- The client's side

  /** Event `e` at instant `t` makes `m` flush at instant `d`: right away, or by its flush timer. */
  predicate FlushesAt(m: Node, e: Event, t: nat, d: nat) {
    var timer := m.Step(t, e).ring.clearFdb;
    if d == t then Flushed in m.Out(e) && timer.Idle?
    else Flushed !in m.Out(e) && timer.Armed? && timer.due == d
  }

  /** A plain client with at least one ring link. */
  predicate Listening(m: Node) { MrcInv(m.cfg, m.ring) && m.ring.mrc != MrcAcStat1 }

  /** Whatever it had scheduled before, a client that receives an interval flushes when it has passed. */
  lemma ClientHears(m: Node, t: nat, x: RingPort, f: Pdu)
    requires Listening(m) && f.Topo?
    ensures FlushesAt(m, Receive(OnRing(x), f), t, t + f.interval * 1000)
    ensures Listening(m.Step(t, Receive(OnRing(x), f)))
  {
    var e := Receive(OnRing(x), f);
    assert m.Passes(e);
    MrcInvKept(m.cfg, m.ring, m.inter.role, t, e, true);
  }

  /** The millisecond field loses less than a millisecond, and nothing for whole milliseconds. */
  lemma FrameInstant(c: Config, t: nat, span: nat, left: nat)
    requires left <= span && span * c.topoInterval < 65536000
    ensures var d := SentAt(c, t, span, left) + BurstFrame(c, left).interval * 1000;
            && d <= FlushInstant(c, t, span) < d + 1000
            && (c.topoInterval % 1000 == 0 ==> d == FlushInstant(c, t, span))
  {
    MulSplit(left, span, c.topoInterval);
    if c.topoInterval % 1000 == 0 { WholeMs(left, c.topoInterval); }
  }

  /** A client that gets the announcement of `left` intervals at instant `at` flushes within the last
      millisecond before the manager, and at the very same instant if intervals are whole milliseconds. */
  predicate FlushesTogether(c: Config, t: nat, span: nat, left: nat, at: nat, m: Node, x: RingPort) {
    var f := BurstFrame(c, left);
    var d := at + f.interval * 1000;
    && FlushesAt(m, Receive(OnRing(x), f), at, d)
    && d <= FlushInstant(c, t, span) < d + 1000
    && (c.topoInterval % 1000 == 0 ==> d == FlushInstant(c, t, span))
  }

  /** One delivered frame suffices. */
  lemma SynchronisedFlush(c: Config, t: nat, span: nat, left: nat, m: Node, x: RingPort)
    requires left <= span && span * c.topoInterval < 65536000
    requires Listening(m)
    ensures FlushesTogether(c, t, span, left, SentAt(c, t, span, left), m, x)
  {
    ClientHears(m, SentAt(c, t, span, left), x, BurstFrame(c, left));
    FrameInstant(c, t, span, left);
  }

  lemma FlushesOnTime(c: Config, t: nat, span: nat, left: nat, at: nat, m: Node, x: RingPort)
    requires left <= span && span * c.topoInterval < 65536000 && at == SentAt(c, t, span, left)
    requires Listening(m)
    ensures FlushesTogether(c, t, span, left, at, m, x)
  {
    SynchronisedFlush(c, t, span, left, m, x);
  }

  /** The two sides together: in any uninterrupted run of the manager, every expiry of its topology timer
      sends frames that make a client that gets one of them without delay flush with the manager. */
  lemma ManagerAndClient(s: seq<Node>, es: seq<(nat, Event)>, t: nat, span: nat, k: nat, left: nat,
                         m: Node, x: RingPort)
    requires IsRun(s, es) && k < |es| && Uninterrupted(s, es, k + 1) && es[k].1 == Expire(RingTopoT)
    requires FixedMrm(s[0].cfg, s[0].ring, s[0].inter) && span > 0
    requires Awaits(s[0].cfg, s[0].ring, t, span, span - 1) && Ticks(es, RingTopoT, k) + 1 + left == span
    requires span * s[0].cfg.topoInterval < 65536000 && Listening(m)
    ensures FlushesTogether(s[0].cfg, t, span, left, es[k].0, m, x)
  {
    BurstInstant(s, es, t, span, k, left);
    FlushesOnTime(s[0].cfg, t, span, left, es[k].0, m, x);
  }

  /** What happens to a client during a burst: it hears the announcement of `left` intervals on port
      `x`, or its flush timer expires. */
  datatype Moment = Hear(left: nat, x: RingPort) | Flush(at: nat)

  predicate Selection(span: nat, hs: seq<Moment>) {
    forall i :: 0 <= i < |hs| && hs[i].Hear? ==> hs[i].left <= span
  }

  function MomentEvent(c: Config, h: Moment): Event {
    match h
    case Hear(left, x) => Receive(OnRing(x), BurstFrame(c, left))
    case Flush(_) => Expire(ClearFdbT)
  }

  function MomentTime(c: Config, t: nat, span: nat, h: Moment): nat
    requires h.Hear? ==> h.left <= span
  {
    match h
    case Hear(left, _) => SentAt(c, t, span, left)
    case Flush(at) => at
  }

  /** The client after a selection of the burst of configuration `c`: any frames, each on any ring port
      and without delay, in any order and any number of times, with flushes in between. */
  function HearAll(c: Config, t: nat, span: nat, m: Node, hs: seq<Moment>): Node
    requires Selection(span, hs)
  {
    if hs == [] then m
    else
      var h := hs[|hs| - 1];
      HearAll(c, t, span, m, hs[..|hs| - 1]).Step(MomentTime(c, t, span, h), MomentEvent(c, h))
  }

  /** A scheduled flush happens when its timer expires, and leaves the client listening. */
  lemma ScheduledFlush(m: Node, t: nat)
    requires Listening(m)
    ensures m.ring.clearFdb.Armed? ==> m.Out(Expire(ClearFdbT)) == [Flushed]
    ensures Listening(m.Step(t, Expire(ClearFdbT)))
  {
    MrcInvKept(m.cfg, m.ring, m.inter.role, t, Expire(ClearFdbT), false);
  }

  lemma {:induction false} StaysListening(c: Config, t: nat, span: nat, m: Node, hs: seq<Moment>)
    requires Listening(m) && Selection(span, hs)
    ensures Listening(HearAll(c, t, span, m, hs))
  {
    if hs != [] {
      var h, before := hs[|hs| - 1], HearAll(c, t, span, m, hs[..|hs| - 1]);
      StaysListening(c, t, span, m, hs[..|hs| - 1]);
      match h {
        case Hear(left, x) => ClientHears(before, SentAt(c, t, span, left), x, BurstFrame(c, left));
        case Flush(at) => ScheduledFlush(before, at);
      }
    }
  }

  /** Any nonempty selection of the announcements suffices: whatever was heard and flushed before, the
      last announcement heard makes the client flush within the last millisecond before the manager's
      flush instant, and at that instant if intervals are whole milliseconds. A flush that is not
      immediate is the next expiry of the flush timer. */
  lemma AnySubsetSuffices(c: Config, t: nat, span: nat, m: Node, hs: seq<Moment>, left: nat, x: RingPort)
    requires span * c.topoInterval < 65536000 && left <= span
    requires Listening(m) && Selection(span, hs)
    ensures var before := HearAll(c, t, span, m, hs);
            var at := SentAt(c, t, span, left);
            var after := before.Step(at, Receive(OnRing(x), BurstFrame(c, left)));
            && FlushesTogether(c, t, span, left, at, before, x)
            && (after.ring.clearFdb.Armed? ==> after.Out(Expire(ClearFdbT)) == [Flushed])
  {
    var before := HearAll(c, t, span, m, hs);
    StaysListening(c, t, span, m, hs);
    SynchronisedFlush(c, t, span, left, before, x);
    ClientHears(before, SentAt(c, t, span, left), x, BurstFrame(c, left));
    ScheduledFlush(before.Step(SentAt(c, t, span, left), Receive(OnRing(x), BurstFrame(c, left))), 0);
  }
}
