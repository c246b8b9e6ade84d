/** How an interconnection client announces that its link came up or was lost, and what it does then. */
module MicAnnounce {
  import opened MrpTypes
  import opened Arithmetic
  import opened MrpInter
  import opened MrpNode
  import opened MrpSetup
  import opened InterInvariants

  predicate Mic(n: Node) { InterInv(n.cfg, n.inter) && n.inter.role == MIC }

  function CountState(up: bool): MicState { if up then MicPt else MicAcStat1 }

  function CountTimer(i: Inter, up: bool): Timer { if up then i.linkUp else i.linkDown }

  function CountId(up: bool): TimerId { if up then InLinkUpT else InLinkDownT }

  /** The link of the interconnection port changes, as the mode of the instance learns of it. */
  function LinkEvent(c: Config, up: bool): Event { if c.inMode == RC then LinkChange(OnInter, up) else CfmChange(!up) }

  /** A client that has just begun to announce at instant `t`. */
  predicate Announcing(n: Node, t: nat, up: bool) {
    && Mic(n) && n.inter.mic == CountState(up) && n.inter.linkCurrMax == n.cfg.inLinkMax
    && n.inter.port == PortRec(Blocked, up)
    && CountTimer(n.inter, up) == Armed(n.cfg.inLinkInterval, t + n.cfg.inLinkInterval)
  }

  /** The announcement of `left` intervals on all three ports. */
  function ChangeFrames(n: Node, up: bool, left: nat): seq<Output> {
    var ms := WireMs(U32(left * n.cfg.inLinkInterval));
    var x := n.ring.primary;
    [Sent(OnRing(x), n.ring.p.up, InLink(up, n.cfg.mac, RoleOf(OnRing(x)), n.cfg.inId, ms)),
     Sent(OnRing(x.Other()), n.ring.s.up, InLink(up, n.cfg.mac, RoleOf(OnRing(x.Other())), n.cfg.inId, ms)),
     Sent(OnInter, n.inter.port.up, InLink(up, n.cfg.mac, Interconnect, n.cfg.inId, ms))]
  }

  /** A link that comes up enters PT, one that is lost AC_STAT1 with the port blocked; both announce the full
      count on all three ports. */
  lemma Begins(n: Node, t: nat, up: bool)
    requires Mic(n) && up == (n.inter.mic == MicAcStat1)
    ensures var e := LinkEvent(n.cfg, up);
            Announcing(n.Step(t, e), t, up) && n.Out(e) == ChangeFrames(n.Step(t, e), up, n.cfg.inLinkMax)
  {
    PortLinkKeeps(n.cfg, n.inter, t, up);
  }

  /** The events that end a countdown before its time: the link changes again, or an InTopologyChange frame
      that is taken for an answer. */
  predicate Disturbs(n: Node, e: Event, up: bool) {
    || (e.LinkChange? && e.port.OnInter? && n.cfg.inMode == RC && e.up != up)
    || (e.CfmChange? && e.defect == up)
    || (n.Passes(e) && e.pdu.InTopo? && (up || e.pdu.id == n.cfg.inId))
  }

  predicate SameCountdown(i: Inter, i': Inter, up: bool) {
    && CountTimer(i', up) == CountTimer(i, up) && i'.linkCurrMax == i.linkCurrMax
    && i'.mic == i.mic && i'.port == i.port
  }

  lemma OthersLeave(n: Node, t: nat, e: Event, up: bool)
    requires Mic(n) && n.inter.mic == CountState(up) && n.inter.port.up == up && CountTimer(n.inter, up).Armed?
    requires !Disturbs(n, e, up) && e != Expire(CountId(up))
    ensures SameCountdown(n.inter, n.Step(t, e).inter, up)
  {
  }

  /** `n0` after `j` expiries of its timer, as far as the countdown goes. */
  predicate Counting(n0: Node, i: Inter, t: nat, j: nat, up: bool) {
    && i.mic == CountState(up) && i.linkCurrMax == n0.cfg.inLinkMax - j && i.port == PortRec(Blocked, up)
    && CountTimer(i, up) == Armed(n0.cfg.inLinkInterval, t + (j + 1) * n0.cfg.inLinkInterval)
  }

  lemma OneExpiry(n0: Node, i: Inter, t: nat, j: nat, up: bool)
    requires j < n0.cfg.inLinkMax && Counting(n0, i, t, j, up)
    ensures Counting(n0, i.Expire(n0.cfg, t + (j + 1) * n0.cfg.inLinkInterval, CountId(up)), t, j + 1, up)
  {
    MulSucc(j + 1, n0.cfg.inLinkInterval);
  }

  predicate Punctual(n: Node, t: nat, e: Event, up: bool) {
    && !Disturbs(n, e, up)
    && (e == Expire(CountId(up)) && CountTimer(n.inter, up).Armed? ==> t == CountTimer(n.inter, up).due)
  }

  ghost predicate Undisturbed(s: seq<Node>, es: seq<(nat, Event)>, k: nat, up: bool) {
    k <= |es| == |s| - 1 && forall q :: 0 <= q < k ==> Punctual(s[q], es[q].0, es[q].1, up)
  }

  lemma CountdownStep(n0: Node, n: Node, t0: nat, e: Event, t: nat, j: nat, up: bool)
    requires Mic(n) && n.cfg == n0.cfg && Counting(n0, n.inter, t, j, up) && Punctual(n, t0, e, up)
    requires j < n0.cfg.inLinkMax || e != Expire(CountId(up))
    ensures var n' := n.Step(t0, e);
            && n'.cfg == n0.cfg && Mic(n')
            && Counting(n0, n'.inter, t, if e == Expire(CountId(up)) then j + 1 else j, up)
  {
    InterInvKept(n.cfg, n.inter, t0, e, n.Passes(e));
    RolesStay(n, t0, e);
    if e == Expire(CountId(up)) {
      OneExpiry(n0, n.inter, t, j, up);
    } else {
      OthersLeave(n, t0, e, up);
    }
  }

  /** Whatever else happens, after `j` expiries the count stands at `inLinkMax - j` and the timer is due one
      interval later. */
  lemma {:induction false} CountsDown(s: seq<Node>, es: seq<(nat, Event)>, t: nat, k: nat, up: bool)
    requires IsRun(s, es) && Undisturbed(s, es, k, up) && Announcing(s[0], t, up)
    requires Ticks(es, CountId(up), k) <= s[0].cfg.inLinkMax
    ensures s[k].cfg == s[0].cfg && Mic(s[k])
    ensures Counting(s[0], s[k].inter, t, Ticks(es, CountId(up), k), up)
  {
    if k > 0 {
      CountsDown(s, es, t, k - 1, up);
      var n, e := s[k - 1], es[k - 1];
      assert Punctual(n, e.0, e.1, up) && s[k - 1 + 1] == n.Step(e.0, e.1);
      var j := Ticks(es, CountId(up), k - 1);
      assert Ticks(es, CountId(up), k) == if e.1 == Expire(CountId(up)) then j + 1 else j;
      CountdownStep(s[0], n, e.0, e.1, t, j, up);
    }
  }

  lemma CountOut(n: Node, up: bool, count: nat)
    requires Mic(n) && CountTimer(n.inter, up).Armed? && n.inter.linkCurrMax == count
    ensures n.Out(Expire(CountId(up))) == if count > 0 then ChangeFrames(n, up, count - 1) else []
  {
  }

  /** Expiry `j + 1` comes after `j + 1` intervals. */
  lemma Instant(s: seq<Node>, es: seq<(nat, Event)>, t: nat, k: nat, up: bool)
    requires IsRun(s, es) && k < |es| && Undisturbed(s, es, k + 1, up) && es[k].1 == Expire(CountId(up))
    requires Announcing(s[0], t, up) && Ticks(es, CountId(up), k) <= s[0].cfg.inLinkMax
    ensures es[k].0 == t + (Ticks(es, CountId(up), k) + 1) * s[0].cfg.inLinkInterval
  {
    CountsDown(s, es, t, k, up);
    assert Punctual(s[k], es[k].0, es[k].1, up);
  }

  /** It announces `inLinkMax - 1 - j` more on all three ports. */
  lemma Announces(s: seq<Node>, es: seq<(nat, Event)>, t: nat, k: nat, up: bool)
    requires IsRun(s, es) && k < |es| && Undisturbed(s, es, k, up) && es[k].1 == Expire(CountId(up))
    requires Announcing(s[0], t, up) && Ticks(es, CountId(up), k) < s[0].cfg.inLinkMax
    ensures s[k].Out(es[k].1) == ChangeFrames(s[k], up, s[0].cfg.inLinkMax - 1 - Ticks(es, CountId(up), k))
  {
    CountsDown(s, es, t, k, up);
    CountOut(s[k], up, s[0].cfg.inLinkMax - Ticks(es, CountId(up), k));
  }

  lemma LastExpiry(c: Config, i: Inter, t: nat, up: bool)
    requires CountTimer(i, up).Armed? && i.linkCurrMax == 0 && i.mic == CountState(up) && i.port.state == Blocked
    ensures var i' := i.Expire(c, t, CountId(up));
            && CountTimer(i', up).Idle? && i'.mic == (if up then IpIdle else MicAcStat1)
            && i'.port.state == if up then Forwarding else Blocked
  {
  }

  /** The expiry after that ends the countdown, silently, and stops the timer: after a link came up the port
      opens and IP_IDLE is reached, after a loss it stays blocked. */
  lemma Settles(s: seq<Node>, es: seq<(nat, Event)>, t: nat, k: nat, up: bool)
    requires IsRun(s, es) && k < |es| && Undisturbed(s, es, k + 1, up) && es[k].1 == Expire(CountId(up))
    requires Announcing(s[0], t, up) && Ticks(es, CountId(up), k) == s[0].cfg.inLinkMax
    ensures s[k].Out(es[k].1) == []
    ensures s[k].inter.port.state == Blocked && s[k + 1].inter.port.state == if up then Forwarding else Blocked
    ensures s[k + 1].inter.mic == (if up then IpIdle else MicAcStat1) && CountTimer(s[k + 1].inter, up).Idle?
  {
    CountsDown(s, es, t, k, up);
    assert s[k + 1] == s[k].Step(es[k].0, es[k].1);
    CountOut(s[k], up, 0);
    LastExpiry(s[k].cfg, s[k].inter, es[k].0, up);
  }

  /** An InTopologyChange frame, which answers the announcement, opens the port at once. */
  lemma AnswerOpens(n: Node, t: nat, at: PortRef, f: Pdu)
    requires Mic(n) && n.inter.mic == MicPt && f.InTopo? && n.StateOf(at) != Disabled
    ensures var i := n.Step(t, Receive(at, f)).inter; i.mic == IpIdle && i.port.state == Forwarding && i.linkUp.Idle?
  {
    assert n.Passes(Receive(at, f));
  }

  /** One with the own id ends the announcement of a loss. */
  lemma AnswerEnds(n: Node, t: nat, at: PortRef, f: Pdu)
    requires Mic(n) && n.inter.mic == MicAcStat1 && f.InTopo?
    requires n.StateOf(at) != Disabled
    ensures var i := n.Step(t, Receive(at, f)).inter;
            i.mic == MicAcStat1 && i.port == n.inter.port &&
            i.linkDown == if f.id == n.cfg.inId then Idle else n.inter.linkDown
  {
    assert n.Passes(Receive(at, f));
  }
}
