/** How long a fixed-role manager can go without its own test frames before it gives up CHK_RC. */
module Detection {
  import opened MrpTypes
  import opened Arithmetic
  import opened EtherAddr
  import opened MrpRing
  import opened MrpNode
  import opened MrpSetup
  import opened MrmInvariants
  import opened Recovery

  /** The instant state `k` of a run is entered. */
  function At(t: nat, es: seq<(nat, Event)>, k: nat): nat
    requires k <= |es|
  {
    if k == 0 then t else es[k - 1].0
  }

  /** A run on a clock: time does not go back, and no event overtakes an expired test timer. */
  ghost predicate TimedRun(s: seq<Node>, es: seq<(nat, Event)>, t: nat) {
    && IsRun(s, es)
    && forall k :: 0 <= k < |es| ==>
         At(t, es, k) <= es[k].0 && (s[k].ring.test.Armed? ==> es[k].0 <= s[k].ring.test.due)
  }

  predicate OwnTest(c: Config, e: Event) {
    e.Receive? && e.pdu.Test? && MacEqual(e.pdu.sa, c.mac)
  }

  /** The next expiry is near: one interval away, plus one short interval if an extra test was added. */
  predicate NextNear(c: Config, r: Ring, now: nat) {
    r.test.Armed? ==> r.test.due <= now + c.testInterval + if r.addTest then c.testShort else 0
  }

  /** An instant by which the manager will have given up: the next expiry, one pending extra test,
      and a full round for every observation that may still be missed. */
  function Deadline(c: Config, r: Ring): int
    requires r.test.Armed?
  {
    r.test.due + (if r.addTest then 0 else c.testShort) +
    (r.testCurrMax - r.testCurr) * (c.testInterval + c.testShort)
  }

  lemma NextNearLink(c: Config, r: Ring, now: nat, t: nat, x: RingPort, up: bool)
    requires MrmInv(c, r) && NextNear(c, r, now) && now <= t
    ensures NextNear(c, r.LinkChange(c, t, x, up), t)
  {
  }

  lemma NextNearFrame(c: Config, r: Ring, i: InRole, now: nat, t: nat, pdu: Pdu)
    requires MrmInv(c, r) && i != MIM && NextNear(c, r, now) && now <= t
    ensures NextNear(c, r.Recv(c, t, i, pdu), t)
  {
  }

  lemma NextNearExpiry(c: Config, r: Ring, now: nat, t: nat, id: TimerId)
    requires MrmInv(c, r) && NextNear(c, r, now) && now <= t
    ensures NextNear(c, r.Expire(c, t, id), t)
  {
  }

  lemma NextNearKept(c: Config, r: Ring, i: InRole, now: nat, t: nat, e: Event, passed: bool)
    requires MrmInv(c, r) && i != MIM && NextNear(c, r, now) && now <= t
    ensures NextNear(c, r.Step(c, i, t, e, passed), t)
  {
    match e {
      case LinkChange(OnRing(x), up) => NextNearLink(c, r, now, t, x, up);
      case Receive(_, pdu) => NextNearFrame(c, r, i, now, t, pdu);
      case Expire(id) => NextNearExpiry(c, r, now, t, id);
      case _ =>
    }
  }

  /** The deadline of a manager that is still in CHK_RC does not move. */
  predicate Holds(c: Config, r: Ring, r': Ring) {
    r'.mrm == ChkRc ==> r.test.Armed? && r'.test.Armed? && Deadline(c, r') <= Deadline(c, r)
  }

  lemma DeadlineFrame(c: Config, r: Ring, i: InRole, t: nat, pdu: Pdu)
    requires MrmInv(c, r) && i != MIM && r.mrm == ChkRc && t <= r.test.due
    requires !(pdu.Test? && MacEqual(pdu.sa, c.mac))
    ensures Holds(c, r, r.Recv(c, t, i, pdu))
  {
  }

  /** A missed observation uses up one round. */
  lemma RoundUsed(max: nat, curr: nat, round: nat)
    requires curr < max
    ensures (max - curr - 1) * round + round == (max - curr) * round
  {
    MulSucc(max - curr - 1, round);
  }

  lemma DeadlineExpiry(c: Config, r: Ring, t: nat, id: TimerId)
    requires MrmInv(c, r) && r.mrm == ChkRc && t <= r.test.due
    ensures Holds(c, r, r.Expire(c, t, id))
  {
    if id == RingTestT && r.testCurr < r.testCurrMax {
      RoundUsed(r.testCurrMax, r.testCurr, c.testInterval + c.testShort);
    }
  }

  lemma DeadlineKept(c: Config, r: Ring, i: InRole, t: nat, e: Event, passed: bool)
    requires MrmInv(c, r) && i != MIM && r.mrm == ChkRc && t <= r.test.due && !OwnTest(c, e)
    ensures Holds(c, r, r.Step(c, i, t, e, passed))
  {
    match e {
      case LinkChange(OnRing(_), _) =>
      case Receive(_, pdu) => DeadlineFrame(c, r, i, t, pdu);
      case Expire(id) => DeadlineExpiry(c, r, t, id);
      case _ =>
    }
  }

  /** What every state of a timed run knows about its next expiry. */
  lemma {:induction false} NextNearRun(s: seq<Node>, es: seq<(nat, Event)>, t: nat, k: nat)
    requires TimedRun(s, es, t) && k < |s|
    requires FixedMrm(s[0].cfg, s[0].ring, s[0].inter) && NextNear(s[0].cfg, s[0].ring, t)
    ensures s[k].cfg == s[0].cfg && FixedMrm(s[k].cfg, s[k].ring, s[k].inter)
    ensures NextNear(s[k].cfg, s[k].ring, At(t, es, k))
  {
    if k > 0 {
      NextNearRun(s, es, t, k - 1);
      var n, e := s[k - 1], es[k - 1];
      assert s[k - 1 + 1] == n.Step(e.0, e.1) && At(t, es, k - 1) <= e.0;
      NextNearKept(n.cfg, n.ring, n.inter.role, At(t, es, k - 1), e.0, e.1, n.Passes(e.1));
      MrmInvKept(n.cfg, n.ring, n.inter.role, e.0, e.1, n.Passes(e.1));
      RolesStay(n, e.0, e.1);
    }
  }

  /** From state `a` on the manager stays in CHK_RC up to state `b` without an own test frame. */
  ghost predicate Starved(s: seq<Node>, es: seq<(nat, Event)>, a: nat, b: nat) {
    && a <= b < |s| == |es| + 1
    && (forall k :: a <= k <= b ==> s[k].ring.mrm == ChkRc)
    && (forall k :: a <= k < b ==> !OwnTest(s[0].cfg, es[k].1))
  }

  lemma {:induction false} DeadlineRun(s: seq<Node>, es: seq<(nat, Event)>, t: nat, a: nat, b: nat)
    requires TimedRun(s, es, t) && Starved(s, es, a, b)
    requires FixedMrm(s[0].cfg, s[0].ring, s[0].inter) && NextNear(s[0].cfg, s[0].ring, t)
    ensures s[a].ring.test.Armed? && s[b].ring.test.Armed?
    ensures Deadline(s[0].cfg, s[b].ring) <= Deadline(s[0].cfg, s[a].ring)
    decreases b - a
  {
    NextNearRun(s, es, t, b);
    if a < b {
      DeadlineRun(s, es, t, a, b - 1);
      NextNearRun(s, es, t, b - 1);
      var n, e := s[b - 1], es[b - 1];
      assert s[b - 1 + 1] == n.Step(e.0, e.1) && e.0 <= n.ring.test.due;
      DeadlineKept(n.cfg, n.ring, n.inter.role, e.0, e.1, n.Passes(e.1));
    }
  }

  lemma RoundsLeft(max: nat, curr: nat, round: nat)
    requires curr < max
    ensures 0 <= (max - 1 - curr) * round <= max * round - round
  {
    MulSplit(curr, max - 1, round);
    MulSucc(max - 1, round);
  }

  lemma DeadlineRange(c: Config, r: Ring, now: nat)
    requires MrmInv(c, r) && r.mrm == ChkRc && NextNear(c, r, now)
    ensures r.test.due <= Deadline(c, r) <= now + c.testMax * (c.testInterval + c.testShort)
  {
    RoundsLeft(c.testMax, r.testCurr, c.testInterval + c.testShort);
  }

  /** Whatever LinkChange, InTopology and other frames flood it, a manager that has entered state
      `a` in CHK_RC and gets none of its own test frames has its next expiry, and therefore its
      next event, no later than `testMax * (testInterval + testShort)` after that. */
  lemma DetectionBound(c: Config, i: InRole, present: bool, up: Links, t: nat,
                       s: seq<Node>, es: seq<(nat, Event)>, a: nat, b: nat)
    requires !c.mra && i != MIM && (i != InDisabled || c.inMode == LC ==> present)
    requires TimedRun(s, es, t) && s[0] == Added(c, WantMrm, i, present, up, t)
    requires Starved(s, es, a, b)
    ensures s[b].ring.test.Armed?
    ensures s[b].ring.test.due <= At(t, es, a) + c.testMax * (c.testInterval + c.testShort)
    ensures b < |es| ==> es[b].0 <= s[b].ring.test.due
  {
    FixedMrmAdded(c, i, present, up, t);
    FreshlyAdded(c, i, present, up, t);
    NextNearRun(s, es, t, a);
    NextNearRun(s, es, t, b);
    DeadlineRun(s, es, t, a, b);
    DeadlineRange(c, s[a].ring, At(t, es, a));
    DeadlineRange(c, s[b].ring, At(t, es, b));
  }

  /** So a manager in CHK_RC leaves it in time: if no own test frame came up to an event that is later than
      the bound, the manager was outside CHK_RC in some state on the way. */
  lemma LeavesInTime(c: Config, i: InRole, present: bool, up: Links, t: nat,
                     s: seq<Node>, es: seq<(nat, Event)>, a: nat, k: nat)
    requires !c.mra && i != MIM && (i != InDisabled || c.inMode == LC ==> present)
    requires TimedRun(s, es, t) && s[0] == Added(c, WantMrm, i, present, up, t)
    requires a <= k < |es| && forall q :: a <= q < k ==> !OwnTest(c, es[q].1)
    requires es[k].0 > At(t, es, a) + c.testMax * (c.testInterval + c.testShort)
    ensures exists j :: a <= j <= k && s[j].ring.mrm != ChkRc
  {
    FixedMrmAdded(c, i, present, up, t);
    if forall j :: a <= j <= k ==> s[j].ring.mrm == ChkRc {
      assert Starved(s, es, a, k);
      DetectionBound(c, i, present, up, t, s, es, a, k);
      assert false;
    }
  }

  lemma FreshlyAdded(c: Config, i: InRole, present: bool, up: Links, t: nat)
    requires !c.mra && i != MIM && (i != InDisabled || c.inMode == LC ==> present)
    ensures NextNear(c, Added(c, WantMrm, i, present, up, t).ring, t)
  {
    var n0 := Node(c, RoleSet(c, CreatedRing(c), WantMrm), CreatedInter(c, present, t));
    var eA, eB := LinkChange(OnRing(PortA), true), LinkChange(OnRing(PortB), true);
    var n1 := if up.a then n0.Step(t, eA) else n0;
    NextNearKept(c, n0.ring, InDisabled, t, t, eA, false);
    MrmInvKept(c, n0.ring, InDisabled, t, eA, false);
    NextNearKept(c, n1.ring, InDisabled, t, t, eB, false);
    RolesStay(n0, t, eA);
  }

  /** The four profiles, unscaled, detect an open ring within the time they are named after. */
  lemma ProfileBounds(mac: Mac, prio: u16, react: bool, recv: u8)
    requires recv < 4
    ensures var c := Configured(mac, prio, 0, false, react, RC, recv, 0, 1);
            c.testMax * (c.testInterval + c.testShort) < [500000, 200000, 30000, 10000][recv]
  {
  }
}
