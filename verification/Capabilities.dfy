/**
 * Which operations a component advertises for the reset types its hardware allows, and whether
 * every action planned for an advertised operation can really be sent.
 */
module Capabilities {
  import opened Wrappers
  import opened PowerTypes
  import opened PowerSequence
  import opened Payloads
  import opened Planner

  predicate CanTurnOff(actions: set<Action>) {
    Off in actions || GracefulShutdown in actions
  }

  predicate CanCycle(actions: set<Action>) {
    On in actions && CanTurnOff(actions)
  }

  /** Whether an operation is advertised for a set of reset types. */
  predicate Advertised(actions: set<Action>, op: Operation) {
    match op
    case OpOn => On in actions
    case OpOff => CanTurnOff(actions)
    case OpSoftOff => CanTurnOff(actions)
    case OpForceOff => ForceOff in actions
    case OpSoftRestart => ForceRestart in actions || GracefulRestart in actions || CanCycle(actions)
    case OpHardRestart => CanCycle(actions)
    case OpInit => CanCycle(actions)
    case OpNil => false
  }

  /** An operation added to the list unless it is there. */
  function Add(list: seq<Operation>, op: Operation): (r: seq<Operation>)
    requires NoDuplicates(list)
    ensures NoDuplicates(r)
    ensures forall o :: o in r <==> o in list || o == op
  {
    if op in list then list else list + [op]
  }

  /** What the loop adds for one reset type. */
  predicate Brings(a: Action, op: Operation) {
    match a
    case ForceOff => op == OpForceOff
    case ForceRestart => op == OpSoftRestart
    case GracefulRestart => op == OpSoftRestart
    case Off => op == OpSoftOff || op == OpOff
    case GracefulShutdown => op == OpSoftOff || op == OpOff
    case On => op == OpOn
    case OtherReset(_) => false
  }

  /** The operations one reset type brings, added to the list. */
  function AddReset(list: seq<Operation>, a: Action): (r: seq<Operation>)
    requires NoDuplicates(list)
    ensures NoDuplicates(r)
    ensures forall o :: o in r <==> o in list || Brings(a, o)
  {
    match a
    case ForceOff => Add(list, OpForceOff)
    case ForceRestart => Add(list, OpSoftRestart)
    case GracefulRestart => Add(list, OpSoftRestart)
    case Off => Add(Add(list, OpSoftOff), OpOff)
    case GracefulShutdown => Add(Add(list, OpSoftOff), OpOff)
    case On => Add(list, OpOn)
    case OtherReset(_) => list
  }

  /** Translates the hardware's reset types into operations. */
  method ToPowerActions(resets: seq<Action>) returns (ops: seq<Operation>)
    ensures NoDuplicates(ops)
    ensures forall op :: op in ops <==> Advertised((set a | a in resets), op)
  {
    hide Brings, AddReset;
    ops := [];
    for i := 0 to |resets|
      invariant NoDuplicates(ops)
      invariant forall op :: op in ops <==> exists j :: 0 <= j < i && Brings(resets[j], op)
    {
      ops := AddReset(ops, resets[i]);
    }
    ghost var actions := set a | a in resets;
    assert forall op :: op in ops <==> exists a :: a in actions && Brings(a, op);
    BroughtOps(actions, ops);
    if OpOn in ops && OpOff in ops {
      var hasRestart := OpSoftRestart in ops;
      ops := ops + [OpInit, OpHardRestart];
      if !hasRestart {
        ops := ops + [OpSoftRestart];
      }
    }
  }

  lemma BroughtOps(actions: set<Action>, ops: seq<Operation>)
    requires forall op :: op in ops <==> exists a :: a in actions && Brings(a, op)
    ensures OpOn in ops <==> On in actions
    ensures OpOff in ops <==> CanTurnOff(actions)
    ensures OpSoftOff in ops <==> CanTurnOff(actions)
    ensures OpForceOff in ops <==> ForceOff in actions
    ensures OpSoftRestart in ops <==> ForceRestart in actions || GracefulRestart in actions
    ensures OpInit !in ops && OpHardRestart !in ops && OpNil !in ops
  {
  }

  // Soundness --------------------------------------------------------------------------------------

  /** The actions planned for a component, and the force-off a timed-out shutdown turns into. */
  function Planned(op: Operation, isBMC: bool, parentOk: bool, c: Component): set<Action> {
    var planned := set a | a in Decide(op, isBMC, parentOk, c).actions;
    if GracefulShutdown in planned && op != OpSoftOff && ForceOff in c.actions then planned + {ForceOff} else planned
  }

  /** Every action a component with these reset types can ever have planned for op, over any number of resumed runs. */
  function MayPlan(op: Operation, isBMC: bool, parentOk: bool, actions: set<Action>): set<Action> {
    if op != OpSoftRestart then Scheduled(op)
    else if HasRestart(isBMC, actions) && parentOk then {GracefulRestart}
    else if isBMC then {}
    else {GracefulShutdown, ForceOff, On}
  }

  predicate LastSent(c: Component, t: HMSType, a: Action) {
    HasPayload(c, t, a) && c.task.operation == OperationOf(a)
  }

  /** What a task can look like: not started, or marked with the last action that was sent for it. */
  ghost predicate Plausible(op: Operation, t: HMSType, isBMC: bool, parentOk: bool, c: Component) {
    && Unfinished(c.task)
    && if c.task.state == GatherData then c.task.operation == op
       else exists a :: a in MayPlan(op, isBMC, parentOk, c.actions) && LastSent(c, t, a)
  }

  /**
   * Whatever is planned for a plausible task leaves a plausible task once it is sent, in whatever state the run
   * stops.
   */
  lemma PlausibleIsKept(op: Operation, t: HMSType, isBMC: bool, parentOk: bool, c: Component, a: Action,
                        state: TaskState, power: PowerState)
    requires Plausible(op, t, isBMC, parentOk, c)
    requires a in Planned(op, isBMC, parentOk, c) && HasPayload(c, t, a) && state != GatherData
    ensures Plausible(op, t, isBMC, parentOk,
                      c.(power := power, task := Task(OperationOf(a), state, InProgress, c.task.reserved)))
  {
    hide Plausible, Planned, MayPlan, ResetFor, OperationOf;
    PlannedIsForeseen(op, t, isBMC, parentOk, c);
    var d := c.(power := power, task := Task(OperationOf(a), state, InProgress, c.task.reserved));
    SentIsPlausible(op, t, isBMC, parentOk, d, a);
  }

  lemma SentIsPlausible(op: Operation, t: HMSType, isBMC: bool, parentOk: bool, c: Component, a: Action)
    requires Unfinished(c.task) && c.task.state != GatherData
    requires a in MayPlan(op, isBMC, parentOk, c.actions) && LastSent(c, t, a)
    ensures Plausible(op, t, isBMC, parentOk, c)
  {
  }

  lemma PlannedIsForeseen(op: Operation, t: HMSType, isBMC: bool, parentOk: bool, c: Component)
    requires Plausible(op, t, isBMC, parentOk, c)
    ensures Planned(op, isBMC, parentOk, c) <= MayPlan(op, isBMC, parentOk, c.actions)
    ensures ForceOff in Planned(op, isBMC, parentOk, c) && op != OpForceOff ==> ForceOff in c.actions
  {
  }

  /** The part of a component that planning cannot change: its reset types and whether its outlet is known. */
  datatype Hardware = Hardware(actions: set<Action>, outletKnown: bool)

  predicate IsOf(c: Component, hw: Hardware) {
    c.actions == hw.actions && c.outletKnown == hw.outletKnown
  }

  /** A run can come upon action a planned for component c. */
  ghost predicate MayMeet(op: Operation, t: HMSType, isBMC: bool, parentOk: bool, c: Component, a: Action) {
    Plausible(op, t, isBMC, parentOk, c) && a in Planned(op, isBMC, parentOk, c)
  }

  /** An operation is sound for some hardware when no planned action lacks a payload. */
  ghost predicate Sound(op: Operation, t: HMSType, isBMC: bool, parentOk: bool, hw: Hardware) {
    forall c, a :: IsOf(c, hw) && MayMeet(op, t, isBMC, parentOk, c, a) ==> HasPayload(c, t, a)
  }

  predicate Reachable(t: HMSType, hw: Hardware) {
    t == CabinetPDUPowerConnector ==> hw.outletKnown
  }

  /** A component no run has touched yet, asked for op. */
  function Fresh(op: Operation, power: PowerState, hw: Hardware): Component {
    Component(power, {op}, hw.actions, [], hw.outletKnown, Task(op, GatherData, New, false), 0)
  }

  /** A component for which op plans something. */
  function Needy(op: Operation, hw: Hardware): Component {
    Fresh(op, if op == OpOn then PoweredOff else PoweredOn, hw)
  }

  lemma NeedyPlans(op: Operation, t: HMSType, isBMC: bool, parentOk: bool, hw: Hardware)
    requires op !in {OpNil, OpSoftRestart}
    ensures Plausible(op, t, isBMC, parentOk, Needy(op, hw))
    ensures Planned(op, isBMC, parentOk, Needy(op, hw)) != {}
  {
    var actions := Decide(op, isBMC, parentOk, Needy(op, hw)).actions;
    assert actions[0] in Planned(op, isBMC, parentOk, Needy(op, hw));
  }

  /** Every advertised operation but soft restart is sound exactly when the component can be addressed. */
  lemma AdvertisedIsSound(op: Operation, t: HMSType, isBMC: bool, parentOk: bool, hw: Hardware)
    requires Advertised(hw.actions, op) && op != OpSoftRestart
    ensures Sound(op, t, isBMC, parentOk, hw) <==> Reachable(t, hw)
  {
    if Reachable(t, hw) {
      forall c, a | IsOf(c, hw) && MayMeet(op, t, isBMC, parentOk, c, a)
        ensures HasPayload(c, t, a)
      {
        PlannedIsForeseen(op, t, isBMC, parentOk, c);
      }
    } else {
      NeedyPlans(op, t, isBMC, parentOk, hw);
      var a :| a in Planned(op, isBMC, parentOk, Needy(op, hw));
      assert IsOf(Needy(op, hw), hw) && MayMeet(op, t, isBMC, parentOk, Needy(op, hw), a);
    }
  }

  /**
   * Soft restart is sound exactly when the restart itself is sent and the component can be addressed,
   * or the component is a controller that goes down with its parent, or it can be addressed and
   * turned off and on.
   */
  lemma SoftRestartExactly(t: HMSType, isBMC: bool, parentOk: bool, hw: Hardware)
    ensures Sound(OpSoftRestart, t, isBMC, parentOk, hw) <==>
            if HasRestart(isBMC, hw.actions) && parentOk then Reachable(t, hw)
            else isBMC || (CanCycle(hw.actions) && Reachable(t, hw))
  {
    var restart := HasRestart(isBMC, hw.actions) && parentOk;
    if if restart then Reachable(t, hw) else isBMC || (CanCycle(hw.actions) && Reachable(t, hw)) {
      forall c, a | IsOf(c, hw) && MayMeet(OpSoftRestart, t, isBMC, parentOk, c, a)
        ensures HasPayload(c, t, a)
      {
        PlannedIsForeseen(OpSoftRestart, t, isBMC, parentOk, c);
      }
    } else {
      var c := Needy(OpSoftRestart, hw);
      assert IsOf(c, hw) && Plausible(OpSoftRestart, t, isBMC, parentOk, c);
      var bad := if restart then GracefulRestart else if On in hw.actions then GracefulShutdown else On;
      assert Decide(OpSoftRestart, isBMC, parentOk, c).actions ==
          if restart then [GracefulRestart] else [GracefulShutdown, On];
      assert MayMeet(OpSoftRestart, t, isBMC, parentOk, c, bad) && !HasPayload(c, t, bad);
    }
  }

  /** An operation that can always be carried out is advertised, unless it is the soft restart of a controller. */
  lemma SoundIsAdvertised(op: Operation, t: HMSType, isBMC: bool, parentOk: bool, hw: Hardware)
    requires op != OpNil && Sound(op, t, isBMC, parentOk, hw) && !(op == OpSoftRestart && isBMC)
    ensures Advertised(hw.actions, op)
  {
    if op == OpSoftRestart {
      SoftRestartExactly(t, isBMC, parentOk, hw);
    } else {
      var c := Needy(op, hw);
      NeedyPlans(op, t, isBMC, parentOk, hw);
      GentleFirst(op, isBMC, parentOk, c);
      var actions := Decide(op, isBMC, parentOk, c).actions;
      forall a | a in actions ensures HasPayload(c, t, a) {
        assert IsOf(c, hw) && MayMeet(op, t, isBMC, parentOk, c, a);
      }
      assert actions[0] in actions && (|actions| > 1 ==> actions[1] in actions);
    }
  }

  /** A node that only allows a forced restart advertises soft restart, and the plan for it cannot be sent. */
  lemma ForceRestartOnly()
    ensures Advertised({ForceRestart}, OpSoftRestart)
    ensures !Sound(OpSoftRestart, Node, false, true, Hardware({ForceRestart}, true))
  {
    SoftRestartExactly(Node, false, true, Hardware({ForceRestart}, true));
  }
}
