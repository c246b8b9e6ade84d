/** What a client without auto-manager support keeps over every run, and how its
    link-change announcement counts down. */
module MrcInvariants {
  import opened MrpTypes
  import opened Arithmetic
  import opened MrpRing
  import opened MrpInter
  import opened MrpNode
  import opened MrpSetup

  /** State, links and port states determine each other. */
  predicate LinkTable(r: Ring) {
    && (r.mrc == MrcAcStat1 <==> !r.p.up && !r.s.up)
    && (r.mrc == DeIdle || r.mrc == DataExchange <==> r.p.up && !r.s.up)
    && (r.mrc == PassThrough || r.mrc == PtIdle <==> r.p.up && r.s.up)
    && r.p.state == (if r.mrc == MrcAcStat1 then Blocked else Forwarding)
    && r.s.state == (if r.mrc == PtIdle then Forwarding else Blocked)
  }

  predicate LinkTimers(r: Ring) {
    && (r.linkUp.Armed? <==> r.mrc == PassThrough)
    && (r.linkDown.Armed? <==> r.mrc == DataExchange)
  }

  predicate MrcInv(c: Config, r: Ring) {
    && !c.mra && r.role == MRC
    && LinkTable(r) && LinkTimers(r)
    && r.linkCurrMax <= c.linkMax
    && r.test.Idle? && r.topo.Idle? && !r.topoRunning
  }

  /** `SetOper` breaks the link table; `MrcPortLink` restores it. */
  lemma LinkUpKeeps(c: Config, r: Ring, now: nat, x: RingPort)
    requires MrcInv(c, r)
    ensures MrcInv(c, r.SetOper(x, true).MrcPortLink(c, now, x, true))
  {
  }

  lemma LinkDownKeeps(c: Config, r: Ring, now: nat, x: RingPort)
    requires MrcInv(c, r)
    ensures MrcInv(c, r.SetOper(x, false).MrcPortLink(c, now, x, false))
  {
  }

  lemma RecvKeeps(c: Config, r: Ring, i: InRole, now: nat, pdu: Pdu)
    requires MrcInv(c, r)
    ensures MrcInv(c, r.Recv(c, now, i, pdu))
  {
  }

  lemma ExpireKeeps(c: Config, r: Ring, now: nat, t: TimerId)
    requires MrcInv(c, r)
    ensures MrcInv(c, r.Expire(c, now, t))
  {
  }

  lemma MrcInvKept(c: Config, r: Ring, i: InRole, now: nat, e: Event, passed: bool)
    requires MrcInv(c, r)
    ensures MrcInv(c, r.Step(c, i, now, e, passed))
  {
    match e {
      case LinkChange(OnRing(x), up) =>
        if up { LinkUpKeeps(c, r, now, x); } else { LinkDownKeeps(c, r, now, x); }
      case Receive(_, pdu) => RecvKeeps(c, r, i, now, pdu);
      case Expire(t) => ExpireKeeps(c, r, now, t);
      case _ =>
    }
  }

  ghost predicate PlainMrc(c: Config, r: Ring, i: Inter) { MrcInv(c, r) }

  lemma PlainMrcInductive()
    ensures Inductive(PlainMrc)
  {
    forall n: Node, t: nat, e: Event | PlainMrc(n.cfg, n.ring, n.inter)
      ensures PlainMrc(n.cfg, n.Step(t, e).ring, n.Step(t, e).inter)
    {
      MrcInvKept(n.cfg, n.ring, n.inter.role, t, e, n.Passes(e));
    }
  }

  /** Every state of every run of a plain client, whatever its interconnection role. */
  lemma MrcRun(c: Config, i: InRole, present: bool, up: Links, t: nat, s: seq<Node>, es: seq<(nat, Event)>, k: nat)
    requires !c.mra && (i != InDisabled || c.inMode == LC ==> present)
    requires IsRun(s, es) && s[0] == Added(c, WantMrc, i, present, up, t) && k < |s|
    ensures s[k].cfg == c && s[k].ring.role == MRC
    ensures LinkTable(s[k].ring) && LinkTimers(s[k].ring)
    ensures s[k].ring.linkCurrMax <= c.linkMax
  {
    PlainMrcInductive();
    AddedKeeps(PlainMrc, c, WantMrc, i, present, up, t);
    Induct(PlainMrc, s, es, k);
  }

  // ---- Announcing a change of the ring links

  /** A countdown is going on: for a link that came up, or for one that was lost. */
  function CountState(up: bool): MrcState { if up then PassThrough else DataExchange }

  function CountTimer(r: Ring, up: bool): Timer { if up then r.linkUp else r.linkDown }

  function CountId(up: bool): TimerId { if up then RingLinkUpT else RingLinkDownT }

  /** A client that has just begun to announce at instant `t`. */
  predicate Announcing(n: Node, t: nat, up: bool) {
    && MrcInv(n.cfg, n.ring) && n.ring.mrc == CountState(up) && n.ring.linkCurrMax == n.cfg.linkMax
    && CountTimer(n.ring, up) == Armed(n.cfg.linkInterval, t + n.cfg.linkInterval)
  }

  /** The announcement of `left` intervals for port `x`, as it leaves the host by that port. */
  function ChangeFrame(c: Config, x: RingPort, up: bool, left: nat): Output {
    Sent(OnRing(x), true, Link(up, c.mac, RoleOf(OnRing(x)), WireMs(U32(left * c.linkInterval)), c.blocked))
  }

  /** Coming up of the second port enters PT and announces the full count on the first one. */
  lemma EntersPt(n: Node, t: nat)
    requires MrcInv(n.cfg, n.ring) && (n.ring.mrc == DeIdle || n.ring.mrc == DataExchange)
    ensures var e := LinkChange(OnRing(n.ring.primary.Other()), true);
            && Announcing(n.Step(t, e), t, true) && n.Step(t, e).ring.primary == n.ring.primary
            && n.Out(e) == [ChangeFrame(n.cfg, n.ring.primary, true, n.cfg.linkMax)]
  {
    LinkUpKeeps(n.cfg, n.ring, t, n.ring.primary.Other());
  }

  /** Loss of either of two ring links enters DE, makes the other port primary and announces the full count
      on that one. */
  lemma EntersDe(n: Node, t: nat, x: RingPort)
    requires MrcInv(n.cfg, n.ring) && (n.ring.mrc == PassThrough || n.ring.mrc == PtIdle)
    ensures var e := LinkChange(OnRing(x), false);
            && Announcing(n.Step(t, e), t, false) && n.Step(t, e).ring.primary == x.Other()
            && n.Out(e) == [ChangeFrame(n.cfg, x.Other(), false, n.cfg.linkMax)]
  {
    LinkDownKeeps(n.cfg, n.ring, t, x);
  }

  /** The events that end a countdown before its time: a change of the ring links and MRP_TopologyChange. */
  predicate Disturbs(n: Node, e: Event, up: bool) {
    || (e.LinkChange? && e.port.OnRing? &&
        (if up then !e.up else e.up != (e.port.x == n.ring.primary)))
    || (n.Passes(e) && e.pdu.Topo?)
  }

  /** The members on which the countdown depends. */
  predicate SameCountdown(r: Ring, r': Ring, up: bool) {
    && CountTimer(r', up) == CountTimer(r, up) && r'.linkCurrMax == r.linkCurrMax && r'.mrc == r.mrc
    && r'.primary == r.primary && r'.p == r.p && r'.s == r.s
  }

  lemma LinkLeaves(c: Config, r: Ring, t: nat, x: RingPort, up: bool, linkUp: bool)
    requires MrcInv(c, r) && r.mrc == CountState(up)
    requires if up then linkUp else linkUp == (x == r.primary)
    ensures SameCountdown(r, r.LinkChange(c, t, x, linkUp), up)
  {
  }

  lemma FrameLeaves(c: Config, r: Ring, i: InRole, t: nat, f: Pdu, up: bool)
    requires MrcInv(c, r) && r.mrc == CountState(up) && !f.Topo?
    ensures SameCountdown(r, r.Recv(c, t, i, f), up)
  {
  }

  lemma ExpiryLeaves(c: Config, r: Ring, t: nat, id: TimerId, up: bool)
    requires MrcInv(c, r) && r.mrc == CountState(up) && id != CountId(up)
    ensures SameCountdown(r, r.Expire(c, t, id), up)
  {
  }

  /** No other event touches the countdown: test frames are relayed, links may be reported again. */
  lemma OthersLeave(n: Node, t: nat, e: Event, up: bool)
    requires MrcInv(n.cfg, n.ring) && n.ring.mrc == CountState(up) && !Disturbs(n, e, up) && e != Expire(CountId(up))
    ensures SameCountdown(n.ring, n.Step(t, e).ring, up)
  {
    match e {
      case LinkChange(OnRing(x), linkUp) => LinkLeaves(n.cfg, n.ring, t, x, up, linkUp);
      case Receive(_, f) => if n.Passes(e) { FrameLeaves(n.cfg, n.ring, n.inter.role, t, f, up); }
      case Expire(id) => ExpiryLeaves(n.cfg, n.ring, t, id, up);
      case _ =>
    }
  }

  /** `n0` after `j` expiries of its timer, as far as the countdown goes. */
  predicate Counting(n0: Node, r: Ring, t: nat, j: nat, up: bool) {
    && r.mrc == CountState(up) && r.linkCurrMax == n0.cfg.linkMax - j
    && CountTimer(r, up) == Armed(n0.cfg.linkInterval, t + (j + 1) * n0.cfg.linkInterval)
    && r.primary == n0.ring.primary && r.p == n0.ring.p && r.s == n0.ring.s
  }

  lemma OneExpiry(n0: Node, r: Ring, t: nat, j: nat, up: bool)
    requires j < n0.cfg.linkMax && Counting(n0, r, t, j, up)
    ensures Counting(n0, r.Expire(n0.cfg, t + (j + 1) * n0.cfg.linkInterval, CountId(up)), t, j + 1, up)
  {
    MulSucc(j + 1, n0.cfg.linkInterval);
  }

  /** The event does not end the countdown, and the timer expires when it is due. */
  predicate Punctual(n: Node, t: nat, e: Event, up: bool) {
    && !Disturbs(n, e, up)
    && (e == Expire(CountId(up)) && CountTimer(n.ring, up).Armed? ==> t == CountTimer(n.ring, up).due)
  }

  ghost predicate Undisturbed(s: seq<Node>, es: seq<(nat, Event)>, k: nat, up: bool) {
    k <= |es| == |s| - 1 && forall q :: 0 <= q < k ==> Punctual(s[q], es[q].0, es[q].1, up)
  }

  lemma CountdownStep(n0: Node, n: Node, t0: nat, e: Event, t: nat, j: nat, up: bool)
    requires MrcInv(n.cfg, n.ring) && n.cfg == n0.cfg && Counting(n0, n.ring, t, j, up) && Punctual(n, t0, e, up)
    requires j < n0.cfg.linkMax || e != Expire(CountId(up))
    ensures var n' := n.Step(t0, e);
            && n'.cfg == n0.cfg && MrcInv(n0.cfg, n'.ring)
            && Counting(n0, n'.ring, t, if e == Expire(CountId(up)) then j + 1 else j, up)
  {
    MrcInvKept(n.cfg, n.ring, n.inter.role, t0, e, n.Passes(e));
    if e == Expire(CountId(up)) {
      OneExpiry(n0, n.ring, t, j, up);
    } else {
      OthersLeave(n, t0, e, up);
    }
  }

  /** Whatever else happens, after `j` expiries the count stands at `linkMax - j`, the timer is due one
      interval later, and ports and state are as they were. */
  lemma {:induction false} CountsDown(s: seq<Node>, es: seq<(nat, Event)>, t: nat, k: nat, up: bool)
    requires IsRun(s, es) && Undisturbed(s, es, k, up) && Announcing(s[0], t, up)
    requires Ticks(es, CountId(up), k) <= s[0].cfg.linkMax
    ensures s[k].cfg == s[0].cfg && MrcInv(s[k].cfg, s[k].ring)
    ensures Counting(s[0], s[k].ring, t, Ticks(es, CountId(up), k), up)
  {
    if k > 0 {
      CountsDown(s, es, t, k - 1, up);
      var n, e := s[k - 1], es[k - 1];
      assert Punctual(n, e.0, e.1, up) && s[k - 1 + 1] == n.Step(e.0, e.1);
      var j := Ticks(es, CountId(up), k - 1);
      assert Ticks(es, CountId(up), k) == if e.1 == Expire(CountId(up)) then j + 1 else j;
      CountdownStep(s[0], n, e.0, e.1, t, j, up);
    }
  }

  lemma CountOut(n: Node, up: bool, count: nat)
    requires MrcInv(n.cfg, n.ring) && n.ring.mrc == CountState(up) && n.ring.linkCurrMax == count
    ensures n.Out(Expire(CountId(up))) ==
            if count > 0 then [ChangeFrame(n.cfg, n.ring.primary, up, count - 1)] else []
  {
  }

  /** Expiry `j + 1` comes after `j + 1` intervals. */
  lemma Instant(s: seq<Node>, es: seq<(nat, Event)>, t: nat, k: nat, up: bool)
    requires IsRun(s, es) && k < |es| && Undisturbed(s, es, k + 1, up) && es[k].1 == Expire(CountId(up))
    requires Announcing(s[0], t, up) && Ticks(es, CountId(up), k) <= s[0].cfg.linkMax
    ensures es[k].0 == t + (Ticks(es, CountId(up), k) + 1) * s[0].cfg.linkInterval
  {
    CountsDown(s, es, t, k, up);
    assert Punctual(s[k], es[k].0, es[k].1, up);
  }

  /** It announces that `linkMax - 1 - j` more will pass; the last announcement is for zero. */
  lemma Announces(s: seq<Node>, es: seq<(nat, Event)>, t: nat, k: nat, up: bool)
    requires IsRun(s, es) && k < |es| && Undisturbed(s, es, k, up) && es[k].1 == Expire(CountId(up))
    requires Announcing(s[0], t, up) && Ticks(es, CountId(up), k) < s[0].cfg.linkMax
    ensures var c, j := s[0].cfg, Ticks(es, CountId(up), k);
            s[k].Out(es[k].1) == [ChangeFrame(c, s[0].ring.primary, up, c.linkMax - 1 - j)]
  {
    CountsDown(s, es, t, k, up);
    CountOut(s[k], up, s[0].cfg.linkMax - Ticks(es, CountId(up), k));
  }

  lemma LastExpiry(c: Config, r: Ring, t: nat, up: bool)
    requires MrcInv(c, r) && r.mrc == CountState(up) && r.linkCurrMax == 0
    ensures var r' := r.Expire(c, t, CountId(up));
            && CountTimer(r', up).Idle? && r'.mrc == (if up then PtIdle else DeIdle)
            && r'.s.state == if up then Forwarding else Blocked
  {
  }

  /** Exactly the expiry after that ends the countdown, silently, and stops the timer: after a link came up
      the secondary port opens and PT_IDLE is reached, after a loss the secondary port stays blocked and
      DE_IDLE is reached. */
  lemma Settles(s: seq<Node>, es: seq<(nat, Event)>, t: nat, k: nat, up: bool)
    requires IsRun(s, es) && k < |es| && Undisturbed(s, es, k + 1, up) && es[k].1 == Expire(CountId(up))
    requires Announcing(s[0], t, up) && Ticks(es, CountId(up), k) == s[0].cfg.linkMax
    ensures s[k].Out(es[k].1) == []
    ensures s[k].ring.s.state == Blocked && s[k + 1].ring.s.state == if up then Forwarding else Blocked
    ensures s[k + 1].ring.mrc == (if up then PtIdle else DeIdle) && CountTimer(s[k + 1].ring, up).Idle?
  {
    CountsDown(s, es, t, k, up);
    assert s[k + 1] == s[k].Step(es[k].0, es[k].1);
    CountOut(s[k], up, 0);
    LastExpiry(s[k].cfg, s[k].ring, es[k].0, up);
  }

  /** MRP_TopologyChange on either ring port, which answers the announcement, ends the countdown at once. */
  lemma AnswerSettles(n: Node, t: nat, x: RingPort, f: Pdu, up: bool)
    requires MrcInv(n.cfg, n.ring) && n.ring.mrc == CountState(up) && f.Topo?
    ensures var r := n.Step(t, Receive(OnRing(x), f)).ring;
            && r.mrc == (if up then PtIdle else DeIdle) && CountTimer(r, up).Idle?
            && r.s.state == if up then Forwarding else Blocked
  {
    assert n.Passes(Receive(OnRing(x), f));
  }
}
