/** The fixed order in which a transition applies its actions, and where a plan entry lies in it. */
module PowerSequence {
  import opened PowerTypes

  datatype Phase = Phase(action: Action, types: seq<HMSType>)

  const PHASES := 14

  /** The k-th element of the power sequence. */
  function PhaseAt(k: nat): Phase
    requires k < PHASES
  {
    if k == 0 then Phase(GracefulShutdown, [Node])
    else if k == 1 then Phase(ForceOff, [Node])
    else if k == 2 then Phase(GracefulShutdown, [RouterModule, ComputeModule])
    else if k == 3 then Phase(ForceOff, [RouterModule, ComputeModule])
    else if k == 4 then Phase(GracefulShutdown, [Chassis])
    else if k == 5 then Phase(ForceOff, [Chassis])
    else if k == 6 then Phase(GracefulShutdown, [CabinetPDUPowerConnector])
    else if k == 7 then Phase(ForceOff, [CabinetPDUPowerConnector])
    else if k == 8 then
      Phase(GracefulRestart, [Node, RouterModule, ComputeModule, Chassis, CabinetPDUPowerConnector,
                              MgmtSwitch, MgmtHLSwitch, CDUMgmtSwitch])
    else if k == 9 then Phase(GracefulRestart, [ChassisBMC, NodeBMC, RouterBMC])
    else if k == 10 then Phase(On, [CabinetPDUPowerConnector])
    else if k == 11 then Phase(On, [Chassis])
    else if k == 12 then Phase(On, [RouterModule, ComputeModule])
    else Phase(On, [Node])
  }

  /** Height of a power-controlled type in the power hierarchy; 4 feeds 3, 3 feeds 2, 2 feeds 1. */
  function Level(t: HMSType): nat {
    match t
    case Node => 1
    case RouterModule => 2
    case ComputeModule => 2
    case Chassis => 3
    case CabinetPDUPowerConnector => 4
    case _ => 0
  }

  /** The one phase that applies action a to type t, or PHASES when the sequence has none. */
  function PhaseOf(a: Action, t: HMSType): (k: nat)
    ensures k <= PHASES
  {
    var l := Level(t);
    match a
    case GracefulShutdown => if l == 0 then PHASES else 2 * l - 2
    case ForceOff => if l == 0 then PHASES else 2 * l - 1
    case GracefulRestart =>
      if l > 0 || t in {MgmtSwitch, MgmtHLSwitch, CDUMgmtSwitch} then 8
      else if t in {ChassisBMC, NodeBMC, RouterBMC} then 9
      else PHASES
    case On => if l == 0 then PHASES else 14 - l
    case _ => PHASES
  }

  predicate IsOff(a: Action) {
    a == GracefulShutdown || a == ForceOff
  }

  /** Every (action, type) pair has at most one phase, and PhaseOf names it. */
  lemma PhaseOfIsUnique(k: nat, a: Action, t: HMSType)
    requires k < PHASES
    ensures a == PhaseAt(k).action && t in PhaseAt(k).types <==> PhaseOf(a, t) == k
  {
    if k < 8 { OffPhases(k, a, t); } else if k < 10 { RestartPhases(k, a, t); } else { OnPhases(k, a, t); }
  }

  lemma OffPhases(k: nat, a: Action, t: HMSType)
    requires k < 8
    ensures a == PhaseAt(k).action && t in PhaseAt(k).types <==> PhaseOf(a, t) == k
  {
  }

  lemma RestartPhases(k: nat, a: Action, t: HMSType)
    requires 8 <= k < 10
    ensures a == PhaseAt(k).action && t in PhaseAt(k).types <==> PhaseOf(a, t) == k
  {
  }

  lemma OnPhases(k: nat, a: Action, t: HMSType)
    requires 10 <= k < PHASES
    ensures a == PhaseAt(k).action && t in PhaseAt(k).types <==> PhaseOf(a, t) == k
  {
  }

  /** Everything that can be power controlled. */
  predicate Controllable(t: HMSType) {
    t != OtherType && t != HMSTypeInvalid
  }

  predicate HasOffAndOn(t: HMSType) {
    t in {Node, ComputeModule, RouterModule, Chassis, CabinetPDUPowerConnector}
  }

  /**
   * What the sequence promises of the hardware. Offs go node, module, chassis, connector, each with
   * its force-off right behind it, and ons the other way round; nothing else is ever turned off or
   * on. Restarts come after every off and before every on; everything controllable can be
   * restarted, controllers after all others.
   */
  lemma SequenceOrder(t: HMSType, u: HMSType)
    ensures PhaseOf(GracefulShutdown, Node) < PhaseOf(GracefulShutdown, ComputeModule)
            == PhaseOf(GracefulShutdown, RouterModule) < PhaseOf(GracefulShutdown, Chassis)
            < PhaseOf(GracefulShutdown, CabinetPDUPowerConnector)
    ensures PhaseOf(On, CabinetPDUPowerConnector) < PhaseOf(On, Chassis) < PhaseOf(On, ComputeModule)
            == PhaseOf(On, RouterModule) < PhaseOf(On, Node)
    ensures forall a :: a in {GracefulShutdown, ForceOff, On} ==> (PhaseOf(a, t) < PHASES <==> HasOffAndOn(t))
    ensures HasOffAndOn(t) ==> PhaseOf(ForceOff, t) == PhaseOf(GracefulShutdown, t) + 1
    ensures PhaseOf(GracefulRestart, t) < PHASES <==> Controllable(t)
    ensures HasOffAndOn(t) && Controllable(u) ==>
              PhaseOf(ForceOff, t) < PhaseOf(GracefulRestart, u) < PhaseOf(On, t)
    ensures t in {NodeBMC, RouterBMC, ChassisBMC} && Controllable(u) && u !in {NodeBMC, RouterBMC, ChassisBMC} ==>
              PhaseOf(GracefulRestart, u) < PhaseOf(GracefulRestart, t)
    ensures forall a :: PhaseOf(a, t) < PHASES ==> a in {GracefulShutdown, ForceOff, GracefulRestart, On}
  {
  }

  // ---- Plans ----

  datatype Slot = Slot(action: Action, typ: HMSType)

  /** The source's seqMap: the components to act on, by action and component type. */
  type Plan = map<Slot, seq<Xname>>

  function ListAt(plan: Plan, a: Action, t: HMSType): seq<Xname> {
    if Slot(a, t) in plan then plan[Slot(a, t)] else []
  }

  function Append(plan: Plan, a: Action, t: HMSType, x: Xname): Plan {
    plan[Slot(a, t) := ListAt(plan, a, t) + [x]]
  }

  /** The concatenated plan lists of one action over several types. */
  function Gather(plan: Plan, a: Action, types: seq<HMSType>): seq<Xname> {
    if types == [] then [] else Gather(plan, a, types[..|types| - 1]) + ListAt(plan, a, types[|types| - 1])
  }

  function PhaseList(plan: Plan, k: nat): seq<Xname>
    requires k < PHASES
  {
    Gather(plan, PhaseAt(k).action, PhaseAt(k).types)
  }

  ghost predicate NoDuplicates<T(!new)>(s: seq<T>) {
    forall i, j :: 0 <= i < j < |s| ==> s[i] != s[j]
  }

  /** Every entry sits in the list of its own type, names a known component, and is listed once. */
  ghost predicate Filed(top: Topology, plan: Plan, names: set<Xname>) {
    && (forall a, t, x :: x in ListAt(plan, a, t) ==> top.typeOf(x) == t && x in names)
    && (forall a, t :: NoDuplicates(ListAt(plan, a, t)))
  }

  lemma {:induction false} GatherMember(plan: Plan, a: Action, types: seq<HMSType>, x: Xname)
    ensures x in Gather(plan, a, types) <==> exists i :: 0 <= i < |types| && x in ListAt(plan, a, types[i])
  {
    if types != [] {
      var init := types[..|types| - 1];
      GatherMember(plan, a, init, x);
      if i :| 0 <= i < |types| && x in ListAt(plan, a, types[i]) {
        if i < |init| { assert init[i] == types[i]; }
      }
    }
  }

  lemma ConcatNoDuplicates(s: seq<Xname>, t: seq<Xname>)
    requires NoDuplicates(s) && NoDuplicates(t)
    requires forall x :: x in s ==> x !in t
    ensures NoDuplicates(s + t)
  {
    var all := s + t;
    forall i, j | 0 <= i < j < |all| ensures all[i] != all[j] {
      if i < |s| <= j { assert all[i] in s && all[j] in t; }
    }
  }

  lemma {:induction false} GatherNoDuplicates(top: Topology, plan: Plan, names: set<Xname>, a: Action,
                                              types: seq<HMSType>)
    requires Filed(top, plan, names)
    requires NoDuplicates(types)
    ensures NoDuplicates(Gather(plan, a, types))
  {
    if types != [] {
      var init, last := types[..|types| - 1], types[|types| - 1];
      var front, back := Gather(plan, a, init), ListAt(plan, a, last);
      forall i, j | 0 <= i < j < |init| ensures init[i] != init[j] {
        assert types[i] != types[j];
      }
      GatherNoDuplicates(top, plan, names, a, init);
      assert NoDuplicates(back);
      forall x | x in front ensures x !in back {
        GatherMember(plan, a, init, x);
        var m :| 0 <= m < |init| && x in ListAt(plan, a, init[m]);
        assert top.typeOf(x) == types[m] != last;
      }
      ConcatNoDuplicates(front, back);
    }
  }

  /** A phase's component list holds exactly the planned components of its pairs, each once. */
  lemma PhaseListMembers(top: Topology, plan: Plan, names: set<Xname>, k: nat)
    requires Filed(top, plan, names)
    requires k < PHASES
    ensures NoDuplicates(PhaseList(plan, k))
    ensures forall x :: x in PhaseList(plan, k) <==>
                        PhaseOf(PhaseAt(k).action, top.typeOf(x)) == k &&
                        x in ListAt(plan, PhaseAt(k).action, top.typeOf(x))
    ensures forall x :: x in PhaseList(plan, k) ==> x in names
  {
    var a, types := PhaseAt(k).action, PhaseAt(k).types;
    PhaseTypesDistinct(k);
    GatherNoDuplicates(top, plan, names, a, types);
    forall x
      ensures x in PhaseList(plan, k) <==> PhaseOf(a, top.typeOf(x)) == k && x in ListAt(plan, a, top.typeOf(x))
    {
      GatherMember(plan, a, types, x);
      PhaseOfIsUnique(k, a, top.typeOf(x));
    }
  }

  lemma PhaseTypesDistinct(k: nat)
    requires k < PHASES
    ensures NoDuplicates(PhaseAt(k).types)
  {
  }

  // ---- How many actions a component still has ahead ----

  function One(b: bool): nat {
    if b then 1 else 0
  }

  function Listed(top: Topology, plan: Plan, x: Xname, a: Action): bool {
    x in ListAt(plan, a, top.typeOf(x))
  }

  function AheadIn(top: Topology, plan: Plan, x: Xname, a: Action, k: nat): nat {
    One(Listed(top, plan, x, a) && k <= PhaseOf(a, top.typeOf(x)) < PHASES)
  }

  /** Plan lists of phases k and later that hold x. */
  function Ahead(top: Topology, plan: Plan, x: Xname, k: nat): nat {
    AheadIn(top, plan, x, GracefulShutdown, k) + AheadIn(top, plan, x, ForceOff, k)
    + AheadIn(top, plan, x, GracefulRestart, k) + AheadIn(top, plan, x, On, k)
  }

  function UncoveredIn(top: Topology, plan: Plan, x: Xname, a: Action): nat {
    One(Listed(top, plan, x, a) && PhaseOf(a, top.typeOf(x)) == PHASES)
  }

  /** Plan lists holding x that no phase ever visits, such as "on" for a management switch. */
  function Uncovered(top: Topology, plan: Plan, x: Xname): nat {
    UncoveredIn(top, plan, x, GracefulShutdown) + UncoveredIn(top, plan, x, ForceOff)
    + UncoveredIn(top, plan, x, GracefulRestart) + UncoveredIn(top, plan, x, On)
  }

  /** All plan lists holding x. */
  function PlanCount(top: Topology, plan: Plan, x: Xname): nat {
    One(Listed(top, plan, x, GracefulShutdown)) + One(Listed(top, plan, x, ForceOff))
    + One(Listed(top, plan, x, GracefulRestart)) + One(Listed(top, plan, x, On))
  }

  lemma PlanCountSplits(top: Topology, plan: Plan, x: Xname)
    ensures PlanCount(top, plan, x) == Ahead(top, plan, x, 0) + Uncovered(top, plan, x)
  {
  }

  lemma AheadStep(top: Topology, plan: Plan, names: set<Xname>, x: Xname, k: nat)
    requires Filed(top, plan, names)
    requires k < PHASES
    ensures Ahead(top, plan, x, k) == One(x in PhaseList(plan, k)) + Ahead(top, plan, x, k + 1)
  {
    PhaseListMembers(top, plan, names, k);
    var t := top.typeOf(x);
    PhaseOfIsUnique(k, GracefulShutdown, t);
    PhaseOfIsUnique(k, ForceOff, t);
    PhaseOfIsUnique(k, GracefulRestart, t);
    PhaseOfIsUnique(k, On, t);
    assert PhaseAt(k).action in {GracefulShutdown, ForceOff, GracefulRestart, On};
  }

  /** Occurrences of x in the component lists of phases k and later, counted one by one. */
  function Occurrences(plan: Plan, x: Xname, k: nat): nat
    requires k <= PHASES
    decreases PHASES - k
  {
    if k == PHASES then 0 else multiset(PhaseList(plan, k))[x] + Occurrences(plan, x, k + 1)
  }

  lemma CountInDistinct(s: seq<Xname>, x: Xname)
    requires NoDuplicates(s)
    ensures multiset(s)[x] == One(x in s)
  {
    if i :| 0 <= i < |s| && s[i] == x {
      assert s == s[..i] + [x] + s[i + 1..];
      assert x !in s[..i] && x !in s[i + 1..];
    }
  }

  lemma NothingAhead(top: Topology, plan: Plan, x: Xname)
    ensures Ahead(top, plan, x, PHASES) == 0
  {
  }

  /** Ahead is the literal occurrence count over the component lists still to come. */
  lemma {:induction false} AheadIsOccurrences(top: Topology, plan: Plan, names: set<Xname>, x: Xname, k: nat)
    requires Filed(top, plan, names)
    requires k <= PHASES
    ensures Ahead(top, plan, x, k) == Occurrences(plan, x, k)
    decreases PHASES - k
  {
    hide Ahead, Filed, NoDuplicates, PhaseAt, PhaseOf, Gather;
    if k == PHASES {
      NothingAhead(top, plan, x);
    } else {
      AheadIsOccurrences(top, plan, names, x, k + 1);
      AheadStep(top, plan, names, x, k);
      PhaseListMembers(top, plan, names, k);
      CountInDistinct(PhaseList(plan, k), x);
    }
  }
}
