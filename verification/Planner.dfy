/**
 * Which actions a component needs for an operation, given its power state and what an
 * earlier run of the same transition had already sent.
 */
module Planner {
  import opened Wrappers
  import opened PowerTypes
  import opened PowerSequence

  type Components = map<Xname, Component>

  datatype Decision = Decision(task: Task, actions: seq<Action>)

  function Finish(task: Task, status: TaskStatus): Decision {
    Decision(task.(status := status), [])
  }

  /** The switch over operations for one unfinished task. */
  function Decide(op: Operation, isBMC: bool, parentOk: bool, c: Component): Decision {
    var task := c.task;
    var on := c.power == PoweredOn;
    if op !in c.supported then Finish(task, Unsupported)
    else match op
      case OpOn =>
        if on then Finish(task, Succeeded) else Decision(task, [On])
      case OpSoftOff =>
        if c.power == PoweredOff then Finish(task, Succeeded) else Decision(task, [GracefulShutdown])
      case OpOff =>
        if c.power == PoweredOff then Finish(task, Succeeded) else Decision(task, [GracefulShutdown])
      case OpSoftRestart =>
        if !on then
          if task.state == GatherData then Finish(task, Failed)
          else if task.operation == OpOn then Decision(task, [On])
          else if task.operation == OpOff || task.operation == OpForceOff then
            Decision(task.(state := Confirming), [On])
          else Finish(task, Failed)
        else if HasRestart(isBMC, c.actions) && parentOk then
          if task.state == Waiting then Finish(task, Succeeded) else Decision(task, [GracefulRestart])
        else if isBMC then Finish(task, Succeeded)
        else if task.operation == OpOn then Finish(task, Succeeded)
        else Decision(task, [GracefulShutdown, On])
      case OpHardRestart =>
        if !on then
          if task.state == GatherData then Finish(task, Failed)
          else if task.operation == OpOn then Decision(task, [On])
          else if task.operation == OpOff || task.operation == OpForceOff then
            Decision(task.(state := Confirming), [On])
          else Decision(task, [])
        else if task.operation == OpOn then Finish(task, Succeeded)
        else Decision(task, [GracefulShutdown, On])
      case OpInit =>
        var wasOff := task.operation == OpOff || task.operation == OpForceOff;
        if on then
          if task.operation == OpOn || (wasOff && task.state == Confirming) then Finish(task, Succeeded)
          else if task.operation == OpForceOff then Decision(task, [ForceOff, On])
          else Decision(task, [GracefulShutdown, On])
        else Decision(if wasOff then task.(state := Confirming) else task, [On])
      case OpForceOff =>
        if c.power == PoweredOff then Finish(task, Succeeded) else Decision(task, [ForceOff])
      case OpNil => Decision(task, [])
  }

  predicate HasRestart(isBMC: bool, actions: set<Action>) {
    GracefulRestart in actions || (isBMC && ForceRestart in actions)
  }

  /** Every action a transition for op can ever apply, the force-off after a timeout included. */
  function Scheduled(op: Operation): set<Action> {
    match op
    case OpOn => {On}
    case OpOff => {GracefulShutdown, ForceOff}
    case OpSoftOff => {GracefulShutdown}
    case OpSoftRestart => {GracefulRestart, GracefulShutdown, ForceOff, On}
    case OpHardRestart => {GracefulShutdown, ForceOff, On}
    case OpInit => {GracefulShutdown, ForceOff, On}
    case OpForceOff => {ForceOff}
    case OpNil => {}
  }

  /** What a stored task of a transition for op can look like when a run picks it up. */
  ghost predicate Resumable(op: Operation, task: Task) {
    if task.state == GatherData then task.operation == op
    else exists a :: a in Scheduled(op) && task.operation == OperationOf(a)
  }

  /** A task nothing is planned for and nobody finishes. */
  predicate Stranded(d: Decision) {
    Unfinished(d.task) && d.actions == []
  }

  /** A decision finishes the task or plans distinct actions of the operation, never both. */
  lemma DecisionShape(op: Operation, isBMC: bool, parentOk: bool, c: Component)
    requires Unfinished(c.task)
    ensures var d := Decide(op, isBMC, parentOk, c);
            && (d.actions != [] ==> Unfinished(d.task))
            && NoDuplicates(d.actions)
            && (forall a :: a in d.actions ==> a in Scheduled(op))
            && !(GracefulShutdown in d.actions && ForceOff in d.actions)
            && d.task.reserved == c.task.reserved
            && (Resumable(op, c.task) ==> Resumable(op, d.task))
  {
  }

  /** The power state an operation is to end in. */
  function Target(op: Operation): PowerState
    requires op != OpNil
  {
    if op in {OpOff, OpSoftOff, OpForceOff} then PoweredOff else PoweredOn
  }

  /** The power state after some actions have taken effect. */
  function AfterActions(power: PowerState, actions: seq<Action>): PowerState {
    if actions == [] then power
    else
      var last := actions[|actions| - 1];
      if last in {GracefulShutdown, ForceOff, Off} then PoweredOff
      else if last in {On, GracefulRestart, ForceRestart} then PoweredOn
      else AfterActions(power, actions[..|actions| - 1])
  }

  /** A fresh task restarts its component when a restart is sent to it or its power goes off on the way. */
  predicate Restarts(actions: seq<Action>) {
    GracefulRestart in actions || GracefulShutdown in actions
  }

  /**
   * What a decision means for the component. Planned actions lead to the target state; a task
   * succeeds without any only where the target state is reached already, and for a fresh task of
   * a plain on or off exactly there; it fails only as a restart of a component that is not on; it
   * is unsupported exactly when the operation is not advertised. A fresh restart of a component
   * that is on interrupts it, except for a controller that goes down with its parent.
   */
  lemma DecisionReachesTarget(op: Operation, isBMC: bool, parentOk: bool, c: Component)
    requires Unfinished(c.task) && op != OpNil
    ensures var d := Decide(op, isBMC, parentOk, c);
            var unsent := c.task.state == GatherData && c.task.operation == op;
            && (d.actions != [] ==> AfterActions(c.power, d.actions) == Target(op) && op in c.supported)
            && (d.task.status == Unsupported <==> op !in c.supported)
            && (d.task.status == Succeeded ==> c.power == Target(op))
            && (unsent && op in c.supported && op in {OpOn, OpOff, OpSoftOff, OpForceOff} ==>
                  (d.task.status == Succeeded <==> c.power == Target(op)))
            && (d.task.status == Failed ==> op in {OpSoftRestart, OpHardRestart} && c.power != PoweredOn)
            && (unsent && op in c.supported && op in {OpSoftRestart, OpHardRestart} ==>
                  (d.task.status == Failed <==> c.power != PoweredOn))
            && (unsent && op in c.supported && op in {OpSoftRestart, OpHardRestart, OpInit} && c.power == PoweredOn ==>
                  Restarts(d.actions) || (isBMC && op == OpSoftRestart && d.task.status == Succeeded))
  {
    hide AfterActions;
    var d := Decide(op, isBMC, parentOk, c);
    if d.actions != [] {
      LastActionDecides(c.power, d.actions);
    }
  }

  /** An action that would change nothing. */
  predicate Idle(power: PowerState, a: Action) {
    || (a == On && power == PoweredOn)
    || (a in {GracefulShutdown, ForceOff} && power == PoweredOff)
    || (a == GracefulRestart && power != PoweredOn)
  }

  /** No planned action is idle when its turn comes, and a restart or init turns nothing off that is not on. */
  lemma NothingIdle(op: Operation, isBMC: bool, parentOk: bool, c: Component, i: nat)
    requires Unfinished(c.task) && op != OpNil && i < |Decide(op, isBMC, parentOk, c).actions|
    ensures var actions := Decide(op, isBMC, parentOk, c).actions;
            && !Idle(AfterActions(c.power, actions[..i]), actions[i])
            && (op in {OpSoftRestart, OpHardRestart, OpInit} && actions[i] in {GracefulShutdown, ForceOff} ==>
                  c.power == PoweredOn)
  {
    var actions := Decide(op, isBMC, parentOk, c).actions;
    if i == 0 {
      assert actions[..0] == [];
    } else {
      assert i == 1 && actions[..1] == [actions[0]];
      LastActionDecides(c.power, actions[..1]);
    }
  }

  /**
   * The gentle way first. A force-off is planned only for a force-off, or for an init whose earlier
   * run had come to one; a task no run has touched begins an off, a soft off, a hard restart or an
   * init of a component that is on with a graceful shutdown, and a soft restart with the restart
   * itself where there is one.
   */
  lemma GentleFirst(op: Operation, isBMC: bool, parentOk: bool, c: Component)
    requires Unfinished(c.task)
    ensures var actions := Decide(op, isBMC, parentOk, c).actions;
            && (ForceOff in actions ==> op == OpForceOff || (op == OpInit && c.task.operation == OpForceOff))
            && (c.task.state == GatherData && c.task.operation == op && op in c.supported && c.power == PoweredOn ==>
                  && (op in {OpOff, OpSoftOff} ==> actions == [GracefulShutdown])
                  && (op in {OpHardRestart, OpInit} ==> actions == [GracefulShutdown, On])
                  && (op == OpForceOff ==> actions == [ForceOff])
                  && (op == OpSoftRestart && !isBMC ==>
                        actions == if GracefulRestart in c.actions && parentOk then [GracefulRestart]
                                   else [GracefulShutdown, On])
                  && (op == OpSoftRestart && isBMC ==>
                        actions == if parentOk && (GracefulRestart in c.actions || ForceRestart in c.actions)
                                   then [GracefulRestart] else []))
            && (c.task.state == GatherData && c.task.operation == op && op in c.supported && c.power != PoweredOn ==>
                  && (op in {OpOn, OpInit} ==> actions == [On])
                  && (op in {OpOff, OpSoftOff} ==> actions == if c.power == PoweredOff then [] else [GracefulShutdown])
                  && (op in {OpSoftRestart, OpHardRestart} ==> actions == []))
  {
  }

  /**
   * Where an earlier run left off. What it confirmed or sent last is not done again: a restart or
   * init that had come to its on, or whose restart was under way, is done when the component is on;
   * one that had come to its off goes on with the on alone when the component is not.
   */
  lemma ResumesWhereItLeftOff(op: Operation, isBMC: bool, parentOk: bool, c: Component)
    requires Unfinished(c.task) && op in c.supported && op in {OpSoftRestart, OpHardRestart, OpInit}
    requires c.task.state != GatherData
    ensures var d := Decide(op, isBMC, parentOk, c);
            && (c.power != PoweredOn && c.task.operation in {OpOff, OpForceOff} ==>
                  d.actions == [On] && d.task == c.task.(state := Confirming))
            && (c.power != PoweredOn && c.task.operation == OpOn ==> d.actions == [On] && d.task == c.task)
            && (c.power == PoweredOn && c.task.operation == OpOn ==>
                  (op == OpSoftRestart && HasRestart(isBMC, c.actions) && parentOk)
                  || d.task == c.task.(status := Succeeded))
            && (op == OpSoftRestart && c.power == PoweredOn && parentOk && HasRestart(isBMC, c.actions) ==>
                  (c.task.state == Waiting ==> d.task == c.task.(status := Succeeded)))
            && (op == OpSoftRestart && c.power != PoweredOn && c.task.operation == OpSoftRestart ==>
                  d.task == c.task.(status := Failed))
            && (op == OpInit && c.power == PoweredOn && c.task.operation in {OpOff, OpForceOff} ==>
                  if c.task.state == Confirming then d.task == c.task.(status := Succeeded)
                  else d.actions == [if c.task.operation == OpOff then GracefulShutdown else ForceOff, On])
  {
  }

  lemma LastActionDecides(power: PowerState, actions: seq<Action>)
    requires actions != []
    ensures actions[|actions| - 1] in {GracefulShutdown, ForceOff} ==> AfterActions(power, actions) == PoweredOff
    ensures actions[|actions| - 1] in {On, GracefulRestart} ==> AfterActions(power, actions) == PoweredOn
  {
  }

  /**
   * Exactly which tasks are stranded: only a supported hard restart of a component that is
   * not on, whose earlier run sent something other than an off, force-off or on.
   */
  lemma StrandedExactly(op: Operation, isBMC: bool, parentOk: bool, c: Component)
    requires Unfinished(c.task) && op != OpNil
    ensures Stranded(Decide(op, isBMC, parentOk, c)) <==>
            && op == OpHardRestart && OpHardRestart in c.supported
            && c.power != PoweredOn && c.task.state != GatherData
            && c.task.operation !in {OpOn, OpOff, OpForceOff}
  {
  }

  /** Planning is total on the tasks a run can leave behind: no resumable task is stranded. */
  lemma PlanningIsTotal(op: Operation, isBMC: bool, parentOk: bool, c: Component)
    requires Unfinished(c.task) && op != OpNil
    requires Resumable(op, c.task)
    ensures !Stranded(Decide(op, isBMC, parentOk, c))
  {
    StrandedExactly(op, isBMC, parentOk, c);
    if op == OpHardRestart && c.task.state != GatherData {
      var a :| a in Scheduled(op) && c.task.operation == OperationOf(a);
    }
  }

  /** Without the run invariant the hard-restart branch does strand a task. */
  lemma StrandedHardRestart() returns (c: Component)
    ensures Unfinished(c.task) && Stranded(Decide(OpHardRestart, false, true, c))
  {
    c := Component(PoweredOff, {OpHardRestart}, {}, [], true, Task(OpSoftRestart, Sending, InProgress, true), 0);
  }

  // ---- The ancestor walk of the soft-restart branch ----

  datatype Walk = Walk(id: Xname, parentOk: bool)

  /** One iteration of the walk: id advances only past ancestors that were not requested. */
  function WalkStep(top: Topology, comps: Components, w: Walk): Walk {
    if w.id in comps then
      var acts := comps[w.id].actions;
      w.(parentOk := w.parentOk && (GracefulRestart in acts || ForceRestart in acts))
    else w.(id := top.parentOf(w.id))
  }

  function WalkFrom(top: Topology, comps: Components, w: Walk, n: nat): Walk
    decreases n
  {
    if n == 0 then w else WalkFrom(top, comps, WalkStep(top, comps, w), n - 1)
  }

  ghost predicate Halts(top: Topology, comps: Components, w: Walk) {
    exists n: nat :: Halted(top, comps, w, n)
  }

  /** The walk meets its exit test after n iterations and not before. */
  ghost predicate Halted(top: Topology, comps: Components, w: Walk, n: nat) {
    && top.typeOf(WalkFrom(top, comps, w, n).id) == HMSTypeInvalid
    && forall m: nat :: m < n ==> top.typeOf(WalkFrom(top, comps, w, m).id) != HMSTypeInvalid
  }

  /** No requested component on the parent chain from id up to the first name that is no xname. */
  predicate NoneRequested(top: Topology, comps: Components, id: Xname, bound: nat)
    decreases bound
  {
    top.typeOf(id) == HMSTypeInvalid ||
    (id !in comps && bound > 0 && NoneRequested(top, comps, top.parentOf(id), bound - 1))
  }

  lemma {:induction false} WalkStays(top: Topology, comps: Components, w: Walk, n: nat)
    requires w.id in comps
    ensures WalkFrom(top, comps, w, n).id == w.id
    decreases n
  {
    if n > 0 { WalkStays(top, comps, WalkStep(top, comps, w), n - 1); }
  }

  /**
   * The walk ends exactly when no ancestor was requested, and then it has changed nothing:
   * a requested parent never turns a restart into an off-on, it stops the planner instead.
   */
  lemma {:induction false} WalkHaltsExactly(top: Topology, comps: Components, w: Walk)
    requires top.Valid()
    ensures Halts(top, comps, w) <==> NoneRequested(top, comps, w.id, |w.id|)
    ensures forall n: nat :: Halted(top, comps, w, n) ==> WalkFrom(top, comps, w, n).parentOk == w.parentOk
    decreases |w.id|
  {
    if top.typeOf(w.id) == HMSTypeInvalid {
      assert WalkFrom(top, comps, w, 0) == w;
      assert Halted(top, comps, w, 0);
      forall n: nat | Halted(top, comps, w, n) ensures n == 0 {
      }
    } else if w.id in comps {
      forall n: nat ensures !Halted(top, comps, w, n) {
        WalkStays(top, comps, w, n);
      }
    } else {
      var w' := WalkStep(top, comps, w);
      WalkHaltsExactly(top, comps, w');
      BoundIrrelevant(top, comps, w'.id, |w'.id|, |w.id| - 1);
      forall n: nat ensures Halted(top, comps, w', n) <==> Halted(top, comps, w, n + 1) {
        ShiftHalted(top, comps, w, n);
      }
      forall n: nat | Halted(top, comps, w, n) ensures n > 0 && Halted(top, comps, w', n - 1) {
        if n > 0 { ShiftHalted(top, comps, w, n - 1); }
      }
      if Halts(top, comps, w') {
        var n: nat :| Halted(top, comps, w', n);
        assert Halted(top, comps, w, n + 1);
      }
    }
  }

  lemma ShiftHalted(top: Topology, comps: Components, w: Walk, n: nat)
    requires top.typeOf(w.id) != HMSTypeInvalid
    ensures Halted(top, comps, WalkStep(top, comps, w), n) <==> Halted(top, comps, w, n + 1)
  {
    var w' := WalkStep(top, comps, w);
    assert WalkFrom(top, comps, w, 0) == w;
    assert forall m: nat :: WalkFrom(top, comps, w, m + 1) == WalkFrom(top, comps, w', m);
    if Halted(top, comps, w, n + 1) {
      forall m: nat | m < n ensures top.typeOf(WalkFrom(top, comps, w', m).id) != HMSTypeInvalid {
        assert top.typeOf(WalkFrom(top, comps, w, m + 1).id) != HMSTypeInvalid;
      }
    }
    if Halted(top, comps, w', n) {
      forall m: nat | m < n + 1 ensures top.typeOf(WalkFrom(top, comps, w, m).id) != HMSTypeInvalid {
        if m > 0 { assert top.typeOf(WalkFrom(top, comps, w', m - 1).id) != HMSTypeInvalid; }
      }
    }
  }

  lemma {:induction false} BoundIrrelevant(top: Topology, comps: Components, id: Xname, b: nat, c: nat)
    requires top.Valid()
    requires |id| <= b && |id| <= c
    ensures NoneRequested(top, comps, id, b) == NoneRequested(top, comps, id, c)
    decreases |id|
  {
    if top.typeOf(id) != HMSTypeInvalid {
      BoundIrrelevant(top, comps, top.parentOf(id), b - 1, c - 1);
    }
  }

  lemma BlockedWalk(top: Topology, comps: Components, id: Xname, bound: nat)
    requires top.Valid() && |id| <= bound && top.typeOf(id) != HMSTypeInvalid && id !in comps
    ensures NoneRequested(top, comps, id, bound) == NoneRequested(top, comps, top.parentOf(id), |top.parentOf(id)|)
  {
    BoundIrrelevant(top, comps, top.parentOf(id), bound - 1, |top.parentOf(id)|);
  }

  /**
   * The walk as the planner runs it, from the parent of x: None when it never ends, because it has
   * come to a requested ancestor and stays there; otherwise what it ends with.
   */
  method ParentSupportsRestart(top: Topology, comps: Components, x: Xname) returns (parentOk: Option<bool>)
    requires top.Valid()
    ensures parentOk.Some? <==> Halts(top, comps, Walk(top.parentOf(x), true))
    ensures parentOk.Some? <==> NoneRequested(top, comps, top.parentOf(x), |top.parentOf(x)|)
    ensures parentOk.Some? ==>
              forall n: nat :: Halted(top, comps, Walk(top.parentOf(x), true), n) ==>
                WalkFrom(top, comps, Walk(top.parentOf(x), true), n).parentOk == parentOk.value
    ensures parentOk.Some? ==> parentOk.value
  {
    hide Halts, Halted, WalkFrom;
    WalkHaltsExactly(top, comps, Walk(top.parentOf(x), true));
    var w := Walk(top.parentOf(x), true);
    while top.typeOf(w.id) != HMSTypeInvalid
      invariant NoneRequested(top, comps, w.id, |w.id|) <==>
                NoneRequested(top, comps, top.parentOf(x), |top.parentOf(x)|)
      invariant w.parentOk
      decreases |w.id|
    {
      if w.id in comps {
        return None;
      }
      BlockedWalk(top, comps, w.id, |w.id|);
      w := WalkStep(top, comps, w);
    }
    return Some(w.parentOk);
  }

  // ---- A request on which the walk never ends ----

  const MODULE := "x0c0s0"
  const BMC := "x0c0s0b0"
  const NODE := "x0c0s0b0n0"

  /** One compute module with one controller and one node. */
  function OneNode(): Topology {
    Topology((x: Xname) => if x == NODE then Node else if x == BMC then NodeBMC else if x == MODULE then ComputeModule
                           else HMSTypeInvalid,
             (x: Xname) => if x == NODE then BMC else if x == BMC then MODULE else "",
             t => t == NodeBMC || t == ChassisBMC || t == RouterBMC)
  }

  lemma OneNodeIsValid()
    ensures OneNode().Valid()
  {
    assert |NODE| == 10 && |BMC| == 8 && |MODULE| == 6;
  }

  /** A soft restart of a node together with its module: the walk from the node stays at the module for ever. */
  lemma WalkNeverEnds(comps: Components, n: nat)
    requires MODULE in comps && BMC !in comps
    ensures !Halts(OneNode(), comps, Walk(OneNode().parentOf(NODE), true))
    ensures n > 0 ==> WalkFrom(OneNode(), comps, Walk(BMC, true), n).id == MODULE
  {
    OneNodeIsValid();
    assert |NODE| == 10 && |BMC| == 8 && |MODULE| == 6;
    WalkHaltsExactly(OneNode(), comps, Walk(BMC, true));
    if n > 0 {
      WalkStays(OneNode(), comps, WalkStep(OneNode(), comps, Walk(BMC, true)), n - 1);
    }
  }
}
