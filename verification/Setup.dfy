/** Adding and destroying an instance (`mrp_create`, `mrp_add`, the role setters and
    `mrp_destroy`), and the runs of an instance in between. */
module MrpSetup {
  import opened MrpTypes
  import opened MrpRing
  import opened MrpInter
  import opened MrpNode

  /** The ring role asked for in `mrp_add`; an auto-manager starts as manager. */
  datatype WantedRole = WantMrc | WantMrm | WantMra

  /** Which links are running when the instance is added. */
  datatype Links = Links(a: bool, b: bool, i: bool)

  const UNUSED := PortRec(Disabled, false)

  /** The ring half after `mrp_create` and `mrp_port_init`. */
  function CreatedRing(c: Config): Ring {
    Ring(MRC, MrmAcStat1, MrcAcStat1, PortA, UNUSED, UNUSED, false, false, 0, 0, c.testMax, 0,
         c.topoMax - 1, false, 0, c.prio, [0, 0, 0, 0, 0, 0], Idle, Idle, Idle, Idle, Idle)
  }

  /** The interconnection half after `mrp_create` and, in LC mode, `mrp_start_cfm`. */
  function CreatedInter(c: Config, present: bool, now: nat): Inter {
    Inter(InDisabled, MimAcStat1, MicAcStat1, present, UNUSED, 0, 0, c.inTestMax, c.inTopoMax - 1, 0, 0,
          Idle, Idle, Idle, Idle, Idle, if c.inMode == LC then Timer.Again(now, c.ccmPeriod) else Idle)
  }

  /** `mrp_reset_ring_state`, the ring half. */
  function ResetRing(r: Ring): Ring {
    r.StopTimers().(mrm := MrmAcStat1, mrc := MrcAcStat1)
  }

  /** `mrp_set_mrm_role`, `mrp_set_mrc_role` and `mrp_set_mra_role` up to the link events. */
  function RoleSet(c: Config, r: Ring, w: WantedRole): Ring {
    var q := ResetRing(r);
    match w
    case WantMrm =>
      q.(addTest := false, noTc := false, testCurr := 0,
         p := q.p.(state := Blocked), s := q.s.(state := Blocked), role := MRM)
    case WantMrc =>
      q.(linkCurrMax := c.linkMax, monCurr := 0,
         p := q.p.(state := Blocked), s := q.s.(state := Blocked), role := MRC)
    case WantMra =>
      q.(addTest := false, noTc := false, testCurr := 0, linkCurrMax := c.linkMax, monCurr := 0,
         p := q.p.(state := Blocked), s := q.s.(state := Blocked), role := MRM)
  }

  /** `mrp_set_mim_role` and `mrp_set_mic_role` up to the link event. */
  function InRoleSet(i: Inter, r: InRole): Inter {
    if r == InDisabled then i
    else i.(mim := MimAcStat1, mic := MicAcStat1, role := r, port := i.port.(state := Blocked))
  }

  /** The instance once its ring role is set and the links of its ring ports that are up have
      been reported, as the event loop would report them. */
  function WithRing(c: Config, w: WantedRole, present: bool, up: Links, t: nat): Node {
    var n0 := Node(c, RoleSet(c, CreatedRing(c), w), CreatedInter(c, present, t));
    var n1 := if up.a then n0.Step(t, LinkChange(OnRing(PortA), true)) else n0;
    if up.b then n1.Step(t, LinkChange(OnRing(PortB), true)) else n1
  }

  /** The interconnection role is set, and the link of the port reported if it is up. */
  function WithInRole(n: Node, r: InRole, up: bool, t: nat): Node {
    var m := n.(inter := InRoleSet(n.inter, r));
    if !up || r == InDisabled then m
    else if n.cfg.inMode == RC then m.Step(t, LinkChange(OnInter, true))
    else m.Step(t, CfmChange(false))
  }

  /** The instance after a successful `mrp_add`: both roles set and all links reported. */
  function Added(c: Config, w: WantedRole, r: InRole, present: bool, up: Links, t: nat): Node
    requires r != InDisabled || c.inMode == LC ==> present
  {
    WithInRole(WithRing(c, w, present, up, t), r, up.i, t)
  }

  /** The instance as `mrp_destroy` leaves it before freeing it. */
  function Destroyed(n: Node): Node {
    n.(ring := ResetRing(n.ring), inter := n.inter.StopTimers(n.cfg))
  }

  // ---- Runs

  /** `s` are the states an instance passes through as it takes the timed events `es`. */
  ghost predicate IsRun(s: seq<Node>, es: seq<(nat, Event)>) {
    && |s| == |es| + 1
    && forall k :: 0 <= k < |es| ==> s[k + 1] == s[k].Step(es[k].0, es[k].1)
  }

  /** How many of the first `k` events are expiries of timer `id`. */
  function Ticks(es: seq<(nat, Event)>, id: TimerId, k: nat): nat
    requires k <= |es|
  {
    if k == 0 then 0 else Ticks(es, id, k - 1) + if es[k - 1].1 == Expire(id) then 1 else 0
  }

  /** A property of the halves of an instance that no event can break. */
  ghost predicate Inductive(inv: (Config, Ring, Inter) -> bool) {
    forall n: Node, t: nat, e: Event ::
      inv(n.cfg, n.ring, n.inter) ==> inv(n.cfg, n.Step(t, e).ring, n.Step(t, e).inter)
  }

  lemma {:induction false} Induct(inv: (Config, Ring, Inter) -> bool, s: seq<Node>, es: seq<(nat, Event)>, k: nat)
    requires IsRun(s, es) && inv(s[0].cfg, s[0].ring, s[0].inter) && Inductive(inv) && k < |s|
    ensures s[k].cfg == s[0].cfg && inv(s[k].cfg, s[k].ring, s[k].inter)
  {
    if k > 0 {
      Induct(inv, s, es, k - 1);
      assert s[k - 1 + 1] == s[k - 1].Step(es[k - 1].0, es[k - 1].1);
    }
  }

  lemma InRolesStay(i: Inter, c: Config, t: nat, e: Event, passed: bool)
    ensures var j := i.Step(c, t, e, passed); j.role == i.role && j.present == i.present
  {
  }

  lemma RolesStay(n: Node, t: nat, e: Event)
    ensures n.Step(t, e).cfg == n.cfg && n.Step(t, e).inter.role == n.inter.role
    ensures n.Step(t, e).inter.present == n.inter.present
  {
    InRolesStay(n.inter, n.cfg, t, e, n.Passes(e));
  }

  /** An inductive property that the role setters establish holds when `mrp_add` returns. */
  lemma AddedKeeps(inv: (Config, Ring, Inter) -> bool,
                   c: Config, w: WantedRole, r: InRole, present: bool, up: Links, t: nat)
    requires r != InDisabled || c.inMode == LC ==> present
    requires Inductive(inv)
    requires inv(c, RoleSet(c, CreatedRing(c), w), CreatedInter(c, present, t))
    requires forall q: Ring, i: Inter :: inv(c, q, i) && i.role == InDisabled && i.present == present
                                         ==> inv(c, q, InRoleSet(i, r))
    ensures var n := Added(c, w, r, present, up, t); n.cfg == c && inv(c, n.ring, n.inter)
  {
    var n0 := Node(c, RoleSet(c, CreatedRing(c), w), CreatedInter(c, present, t));
    var eA, eB := LinkChange(OnRing(PortA), true), LinkChange(OnRing(PortB), true);
    var n1 := if up.a then n0.Step(t, eA) else n0;
    RolesStay(n0, t, eA);
    RolesStay(n1, t, eB);
    var n2 := WithRing(c, w, present, up, t);
    assert inv(c, n2.ring, n2.inter);
  }

  /** The interconnection role is the one asked for, and stays. */
  lemma AddedRole(c: Config, w: WantedRole, r: InRole, present: bool, up: Links, t: nat)
    requires r != InDisabled || c.inMode == LC ==> present
    ensures Added(c, w, r, present, up, t).inter.role == r
  {
    var n0 := Node(c, RoleSet(c, CreatedRing(c), w), CreatedInter(c, present, t));
    var eA, eB := LinkChange(OnRing(PortA), true), LinkChange(OnRing(PortB), true);
    RolesStay(n0, t, eA);
    RolesStay(if up.a then n0.Step(t, eA) else n0, t, eB);
    var n2 := WithRing(c, w, present, up, t);
    var n3 := n2.(inter := InRoleSet(n2.inter, r));
    RolesStay(n3, t, LinkChange(OnInter, true));
    RolesStay(n3, t, CfmChange(false));
  }

  lemma {:induction false} RoleRun(s: seq<Node>, es: seq<(nat, Event)>, k: nat)
    requires IsRun(s, es) && k < |s|
    ensures s[k].cfg == s[0].cfg && s[k].inter.role == s[0].inter.role
  {
    if k > 0 {
      RoleRun(s, es, k - 1);
      assert s[k - 1 + 1] == s[k - 1].Step(es[k - 1].0, es[k - 1].1);
      RolesStay(s[k - 1], es[k - 1].0, es[k - 1].1);
    }
  }
}
