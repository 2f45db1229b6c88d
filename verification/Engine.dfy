/**
 * A transition run in waiting mode. Hardware answers, expired reservations, abort signals and
 * the clock are nondeterministic; a run may be observed after any finite number of polls.
 */
module Engine {
  import opened Wrappers
  import opened PowerTypes
  import opened PowerSequence
  import opened Planner
  import opened Payloads
  import opened RunInvariant
  import opened Fallout
  import opened Blame

  /** StillWaiting: the run is in the middle of a confirmation loop. Hung: the planner never comes to an end. */
  datatype Outcome = Completed | Aborted | Unreserved | StillWaiting | Hung

  datatype PhaseResult = Done | AbortSeen | Polling

  /** From c to d: nothing but tasks and action counts has changed, and no finished task was opened again. */
  ghost predicate Continues(c: Components, d: Components) {
    forall x :: x in d ==>
      && x in c && d[x] == c[x].(task := d[x].task, actionCount := d[x].actionCount)
      && (Unfinished(d[x].task) ==> Unfinished(c[x].task))
  }

  // ---- Planning, component by component ----

  function AppendAll(plan: Plan, t: HMSType, x: Xname, actions: seq<Action>): Plan
    decreases |actions|
  {
    if actions == [] then plan else AppendAll(Append(plan, actions[0], t, x), t, x, actions[1..])
  }

  lemma {:induction false} FiledAppendAll(top: Topology, plan: Plan, names: set<Xname>, x: Xname, actions: seq<Action>)
    requires Filed(top, plan, names) && x in names && NoDuplicates(actions)
    requires forall a :: a in actions ==> !Listed(top, plan, x, a)
    ensures var plan' := AppendAll(plan, top.typeOf(x), x, actions);
            && Filed(top, plan', names)
            && forall y, b :: Listed(top, plan', y, b) <==> Listed(top, plan, y, b) || (y == x && b in actions)
    decreases |actions|
  {
    if actions != [] {
      FiledAppend(top, plan, names, actions[0], x);
      FiledAppendAll(top, Append(plan, actions[0], top.typeOf(x), x), names, x, actions[1..]);
    }
  }

  /** What one component gets when the planner meets it. */
  function Planned(top: Topology, op: Operation, x: Xname, c: Component): Decision {
    Decide(op, top.isController(top.typeOf(x)), true, c)
  }

  function AfterPlanning(top: Topology, op: Operation, x: Xname, c: Component): Component {
    if Unfinished(c.task) then
      var d := Planned(top, op, x, c);
      c.(task := d.task, actionCount := c.actionCount + |d.actions|)
    else c
  }

  predicate WalksAncestors(op: Operation, isBMC: bool, c: Component) {
    && Unfinished(c.task) && op == OpSoftRestart && op in c.supported
    && c.power == PoweredOn && HasRestart(isBMC, c.actions)
  }

  /** The planner gets past component x: if it walks up from x, it meets no requested ancestor. */
  predicate WalkEnds(top: Topology, op: Operation, comps: Components, x: Xname)
    requires x in comps
  {
    WalksAncestors(op, top.isController(top.typeOf(x)), comps[x]) ==>
      NoneRequested(top, comps, top.parentOf(x), |top.parentOf(x)|)
  }

  /** The planner comes to an end. */
  ghost predicate WalksEnd(top: Topology, op: Operation, comps: Components) {
    forall x :: x in comps ==> WalkEnds(top, op, comps, x)
  }

  /** The plan holds x under exactly the actions decided for it. */
  ghost predicate PlannedExactly(top: Topology, op: Operation, plan: Plan, x: Xname, c: Component) {
    forall a :: Listed(top, plan, x, a) <==> Unfinished(c.task) && a in Planned(top, op, x, c).actions
  }

  /** The action count of a planned component is the number of lists it is in, and zero exactly when it is finished. */
  lemma PlanMatchesCount(top: Topology, op: Operation, plan: Plan, x: Xname, c: Component)
    requires op != OpNil && Resumable(op, c.task) && c.actionCount == 0
    requires PlannedExactly(top, op, plan, x, c)
    ensures var d := AfterPlanning(top, op, x, c);
            && d.actionCount == PlanCount(top, plan, x)
            && (Unfinished(d.task) <==> d.actionCount > 0)
            && Resumable(op, d.task)
    ensures Listed(top, plan, x, GracefulShutdown) ==> !Listed(top, plan, x, ForceOff)
  {
    if Unfinished(c.task) {
      var isBMC := top.isController(top.typeOf(x));
      DecisionShape(op, isBMC, true, c);
      PlanningIsTotal(op, isBMC, true, c);
      CountActions(Planned(top, op, x, c).actions, op);
    }
  }

  lemma CountActions(actions: seq<Action>, op: Operation)
    requires NoDuplicates(actions) && |actions| <= 2
    requires forall a :: a in actions ==> a in Scheduled(op)
    ensures |actions| == One(GracefulShutdown in actions) + One(ForceOff in actions)
                         + One(GracefulRestart in actions) + One(On in actions)
  {
    if |actions| > 0 { assert actions[0] in actions; }
    if |actions| > 1 { assert actions[1] in actions; }
  }

  /** Half-way through planning: the components in todo are untouched, the others planned. */
  ghost predicate PlanningState(top: Topology, op: Operation, c: Components, d: Components, plan: Plan,
                                todo: set<Xname>) {
    && d.Keys == c.Keys
    && (forall x :: x in todo && x in d ==> d[x] == c[x])
    && (forall x :: x in d && x !in todo ==> d[x] == AfterPlanning(top, op, x, c[x]))
    && Filed(top, plan, d.Keys)
    && (forall x, a :: x in todo ==> !Listed(top, plan, x, a))
    && (forall x :: x in d && x !in todo ==> PlannedExactly(top, op, plan, x, c[x]))
  }

  /** Of the components outside todo, the unfinished are to be reserved, and only holders of a key besides them. */
  ghost predicate ToReserve(comps: Components, reservations: seq<Xname>, todo: set<Xname>) {
    && (forall x :: x in comps && x !in todo && Unfinished(comps[x].task) ==> x in reservations)
    && (forall x :: x in reservations ==>
          x in comps && x !in todo && (Unfinished(comps[x].task) || comps[x].task.reserved))
  }

  lemma ReserveStart(comps: Components)
    ensures ToReserve(comps, [], comps.Keys)
  {
  }

  lemma ReserveOne(c: Components, d: Components, r: seq<Xname>, r': seq<Xname>, todo: set<Xname>, x: Xname)
    requires ToReserve(c, r, todo + {x}) && x !in todo && x in c
    requires c.Keys == d.Keys && forall y :: y in c && y != x ==> d[y] == c[y]
    requires r' == r || (r' == r + [x] && (Unfinished(d[x].task) || d[x].task.reserved))
    requires Unfinished(d[x].task) ==> r' == r + [x]
    ensures ToReserve(d, r', todo)
  {
  }

  lemma ReservedAreKnown(comps: Components, reservations: seq<Xname>)
    requires ToReserve(comps, reservations, {})
    ensures forall x :: x in reservations ==> x in comps
  {
  }

  lemma PlanStart(top: Topology, op: Operation, c: Components)
    ensures PlanningState(top, op, c, c, map[], c.Keys)
  {
  }

  lemma PlanningFacts(top: Topology, op: Operation, c: Components, d: Components, plan: Plan, todo: set<Xname>,
                      x: Xname)
    requires x in d && PlanningState(top, op, c, d, plan, todo + {x})
    ensures c.Keys == d.Keys && d[x] == c[x]
  {
  }

  lemma PlanNothing(top: Topology, op: Operation, c: Components, d: Components, plan: Plan, todo: set<Xname>, x: Xname)
    requires x !in todo && x in d && PlanningState(top, op, c, d, plan, todo + {x})
    requires !Unfinished(d[x].task)
    ensures PlanningState(top, op, c, d, plan, todo)
  {
    assert forall a :: !Listed(top, plan, x, a);
    forall y | y in d && y !in todo ensures PlannedExactly(top, op, plan, y, c[y]) {
      if y != x { assert y !in todo + {x}; }
    }
  }

  lemma PlanOne(top: Topology, op: Operation, c: Components, d: Components, plan: Plan, todo: set<Xname>, x: Xname)
    requires x !in todo && x in d && PlanningState(top, op, c, d, plan, todo + {x})
    requires Unfinished(d[x].task)
    ensures var actions := Planned(top, op, x, d[x]).actions;
            var d' := d[x := AfterPlanning(top, op, x, d[x])];
            PlanningState(top, op, c, d', AppendAll(plan, top.typeOf(x), x, actions), todo)
  {
    var actions := Planned(top, op, x, d[x]).actions;
    DecisionShape(op, top.isController(top.typeOf(x)), true, d[x]);
    assert forall a :: !Listed(top, plan, x, a);
    FiledAppendAll(top, plan, d.Keys, x, actions);
    var d' := d[x := AfterPlanning(top, op, x, d[x])];
    assert d'.Keys == d.Keys;
    forall y | y in d' && y !in todo
      ensures PlannedExactly(top, op, AppendAll(plan, top.typeOf(x), x, actions), y, c[y])
    {
      if y != x {
        assert y !in todo + {x};
        assert PlannedExactly(top, op, plan, y, c[y]);
      }
    }
  }

  /** The nodes that entered the first shutdown phase: still awaited, confirmed, on to a force-off, or cut off. */
  ghost predicate Answered(top: Topology, entered: set<Xname>, comps: Components, plan: Plan, log: Log,
                           early: set<Xname>, next: nat, pending: set<Xname>)
  {
    forall x :: x in entered ==>
      && x in comps && top.typeOf(x) == Node
      && (x in early || Confirmed(0, x) in log || (GaveUp(0, x, TimedOut) in log && Listed(top, plan, x, ForceOff))
          || (next == 1 && x in pending && Alive(comps[x])))
  }

  /** Failing x leaves the nodes of the first phase accounted for. */
  lemma AnsweredAfterFail(top: Topology, entered: set<Xname>, c: Components, d: Components, plan: Plan, log: Log,
                          early: set<Xname>, early': set<Xname>, next: nat, pending: set<Xname>, x: Xname)
    requires Answered(top, entered, c, plan, log, early, next, pending)
    requires c.Keys == d.Keys && early <= early'
    requires next == 1 && top.typeOf(x) == Node ==> x in early'
    requires forall y :: y in d && y != x && top.typeOf(y) == Node ==> d[y] == c[y]
    ensures Answered(top, entered, d, plan, log, early', next, pending)
  {
  }

  class Transition {
    const top: Topology
    const op: Operation
    const waitForever: bool
    const world: World
    var comps: Components
    var plan: Plan
    var reservations: seq<Xname>
    var phase: nat
    ghost var log: Log
    ghost var cut: set<Xname>
    ghost var early: set<Xname>
    ghost var entered: set<Xname>
    ghost var doomed: set<Xname>
    ghost var forced: set<Xname>
    ghost var causes: Causes

    ghost function Given(): Givens
      reads this`doomed, this`forced
    {
      Givens(top, op, waitForever, world, doomed, forced)
    }

    /** Steps inside a phase change tasks, and the plan only by appended force-offs. */
    twostate predicate Steady()
      reads this
    {
      && reservations == old(reservations) && phase == old(phase) && entered == old(entered)
      && doomed == old(doomed) && forced == old(forced)
      && comps.Keys == old(comps.Keys) && Grew(top, op, old(plan), plan)
      && old(cut) <= cut && old(early) <= early
      && Continues(old(comps), comps)
    }

    /** Every component that may still be commanded is reserved. */
    ghost predicate AllReserved()
      reads this
    {
      forall x :: x in comps && Unfinished(comps[x].task) ==> x in reservations && x in world.granted
    }

    ghost predicate Holds(next: nat, pending: set<Xname>, inflight: set<Xname>)
      reads this
    {
      && Inv(top, op, comps, plan, log, cut, next, pending, inflight)
      && op != OpNil && phase <= PHASES
      && Answered(top, entered, comps, plan, log, early, next, pending)
      && Accounted(Given(), comps, plan, log, cut, early, causes)
      && forall x :: x in reservations ==> x in comps
    }

    constructor (top: Topology, op: Operation, waitForever: bool, world: World, comps: Components)
      ensures this.top == top && this.op == op && this.waitForever == waitForever && this.comps == comps
      ensures this.world == world
      ensures plan == map[] && reservations == [] && phase == 0 && log == [] && cut == early == {} && entered == {}
          && doomed == forced == {}
    {
      this.top, this.op, this.waitForever, this.comps := top, op, waitForever, comps;
      this.world := world;
      plan, reservations, phase := map[], [], 0;
      log, cut, early, entered, doomed, forced, causes := [], {}, {}, {}, {}, {}, map[];
    }

    /**
     * Sorts the components into the plan and collects what has to be reserved; or never comes to an
     * end, when it walks up from a component with a requested ancestor.
     */
    method SequenceComponents() returns (hung: bool)
      requires top.Valid() && op != OpNil && SuppliesOK(top, comps) && AllResumable(op, comps)
      requires forall x :: x in comps ==> comps[x].actionCount == 0
      requires log == [] && cut == early == {} && entered == {} && phase == 0
      modifies this
      ensures hung <==> !WalksEnd(top, op, old(comps))
      ensures log == [] && cut == early == {} && entered == {} && phase == 0
      ensures comps.Keys == old(comps.Keys) && AllResumable(op, comps)
      ensures !hung ==>
        && Holds(0, {}, {})
        && comps == (map x | x in old(comps) :: AfterPlanning(top, op, x, old(comps)[x]))
        && (forall x :: x in comps ==> PlannedExactly(top, op, plan, x, old(comps)[x]))
        && ToReserve(comps, reservations, {})
        && doomed == (set x | x in comps && !Alive(comps[x]))
        && forced == set x | x in comps && Listed(top, plan, x, ForceOff)
    {
      hide Inv, PlanningState, ToReserve, AllResumable, SuppliesOK, AfterPlanning, PlannedExactly, Accounted,
          Extends, WalksEnd;
      ghost var comps0 := comps;
      ghost var left;
      hung, left := PlanAll();
      PlanningResumable(top, op, comps0, comps, plan, left);
      if !hung {
        PlanEstablishesInv(top, op, comps0, comps, plan);
        PlanningDone(top, op, comps0, comps, plan);
        ReservedAreKnown(comps, reservations);
        doomed := set x | x in comps && !Alive(comps[x]);
        forced := set x | x in comps && Listed(top, plan, x, ForceOff);
        causes := map x | x in doomed :: AtPlanning;
        ListedAreKnown(top, op, comps, plan);
        DoomedAccounted(Given(), comps, plan);
      }
    }

    /** The planner's loop, in any order of the components, up to the first it does not get past. */
    method PlanAll() returns (hung: bool, ghost left: set<Xname>)
      requires top.Valid()
      modifies this`comps, this`plan, this`reservations
      ensures hung <==> !WalksEnd(top, op, old(comps))
      ensures PlanningState(top, op, old(comps), comps, plan, left)
      ensures !hung ==> left == {} && ToReserve(comps, reservations, {})
    {
      hide PlanningState, ToReserve, WalkEnds;
      plan, reservations := map[], [];
      var todo := comps.Keys;
      PlanStart(top, op, comps);
      ReserveStart(comps);
      while todo != {}
        invariant todo <= comps.Keys && comps.Keys == old(comps).Keys
        invariant PlanningState(top, op, old(comps), comps, plan, todo)
        invariant ToReserve(comps, reservations, todo)
        invariant forall x :: x in old(comps) && x !in todo ==> WalkEnds(top, op, old(comps), x)
      {
        var x :| x in todo;
        assert todo == todo - {x} + {x};
        hung := PlanComponent(x, old(comps), todo - {x});
        if hung {
          return true, todo;
        }
        todo := todo - {x};
      }
      return false, {};
    }

    /** One iteration of the planner: finishes the task of x or files it under its actions, or never ends. */
    method PlanComponent(x: Xname, ghost comps0: Components, ghost todo: set<Xname>) returns (hung: bool)
      requires top.Valid() && x in comps && x in comps0 && x !in todo
      requires PlanningState(top, op, comps0, comps, plan, todo + {x})
      requires ToReserve(comps, reservations, todo + {x})
      modifies this`comps, this`plan, this`reservations
      ensures hung <==> !WalkEnds(top, op, comps0, x)
      ensures hung ==> comps == old(comps) && plan == old(plan) && reservations == old(reservations)
      ensures comps.Keys == old(comps.Keys) && forall y :: y in comps && y != x ==> comps[y] == old(comps)[y]
      ensures !hung ==> PlanningState(top, op, comps0, comps, plan, todo) && ToReserve(comps, reservations, todo)
    {
      hide AppendAll, Decide, NoneRequested, PlanningState, ToReserve, Halts, Halted, WalkFrom;
      var c := comps[x];
      ghost var before, listed := comps, reservations;
      PlanningFacts(top, op, comps0, comps, plan, todo, x);
      AncestorsUnchanged(top, comps0, comps, top.parentOf(x), |top.parentOf(x)|);
      if !Unfinished(c.task) {
        if c.task.reserved { reservations := reservations + [x]; }
        PlanNothing(top, op, comps0, comps, plan, todo, x);
      } else {
        var isBMC := top.isController(top.typeOf(x));
        var parentOk := Some(true);
        if WalksAncestors(op, isBMC, c) {
          parentOk := ParentSupportsRestart(top, comps, x);
        }
        if parentOk.None? {
          return true;
        }
        FileComponent(x, parentOk.value, comps0, todo);
      }
      ReserveOne(before, comps, listed, reservations, todo, x);
      return false;
    }

    /** Finishes the task of x or files it under the actions decided for it. */
    method FileComponent(x: Xname, parentOk: bool, ghost comps0: Components, ghost todo: set<Xname>)
      requires parentOk && x in comps && x !in todo && Unfinished(comps[x].task)
      requires PlanningState(top, op, comps0, comps, plan, todo + {x})
      modifies this`comps, this`plan, this`reservations
      ensures PlanningState(top, op, comps0, comps, plan, todo)
      ensures comps.Keys == old(comps.Keys) && forall y :: y in comps && y != x ==> comps[y] == old(comps)[y]
      ensures reservations == old(reservations)
              || (reservations == old(reservations) + [x] && (Unfinished(comps[x].task) || comps[x].task.reserved))
      ensures Unfinished(comps[x].task) ==> reservations == old(reservations) + [x]
    {
      hide AppendAll, Decide, PlanningState;
      var c := comps[x];
      var d := Decide(op, top.isController(top.typeOf(x)), parentOk, c);
      PlanOne(top, op, comps0, comps, plan, todo, x);
      plan := AppendAll(plan, top.typeOf(x), x, d.actions);
      comps := comps[x := c.(task := d.task, actionCount := c.actionCount + |d.actions|)];
      if d.task.status != Unsupported && (Unfinished(d.task) || d.task.reserved) {
        reservations := reservations + [x];
      }
    }

    /**
     * Fails the task of x, which is not in flight, and the components that depend on it.
     * In a graceful shutdown a failed node keeps its module and, if need be, one of its supplies.
     */
    method FailTask(a: Action, next: nat, x: Xname, ghost why: Cause, ghost pending: set<Xname>,
                    ghost inflight: set<Xname>)
      requires Holds(next, pending, inflight) && x in comps && x !in inflight
      requires Justified(Given(), comps, plan, log, cut, x, why)
      requires InShutdown(why) && top.typeOf(x) == Node ==> a == GracefulShutdown
      requires next == 1 ==> a == GracefulShutdown
      requires a == GracefulShutdown && top.typeOf(x) == Node ==>
                 BeforeConnectors(inflight) && (BeforeModules(why) ==> NoModuleSent(log))
      modifies this
      ensures Holds(next, pending, inflight)
      ensures Steady() && plan == old(plan) && log == old(log)
      ensures cut == old(cut) + CutBy(top, a, x)
      ensures early == old(early) + if NoModuleSent(log) then CutBy(top, a, x) else {}
      ensures comps == FailAll(old(comps), StruckBy(top, old(comps), a, x)) && !Alive(comps[x])
      ensures forall y :: y in comps && y != x && top.typeOf(y) == Node ==> comps[y] == old(comps)[y]
      ensures forall y :: y in comps && y != x && !(a == GracefulShutdown && top.typeOf(x) == Node) ==>
                comps[y] == old(comps)[y]
    {
      hide Inv, Accounted, Extends, Justified, Grew, Answered, Dependents, FailAll, StruckBy, Continues, InShutdown,
          BeforeModules, NoModuleSent;
      GrewReflexive(top, op, plan);
      ghost var c := comps;
      if a == GracefulShutdown && top.typeOf(x) == Node {
        FailNode(next, x, why, pending, inflight);
      } else {
        AccountedFail(Given(), c, plan, log, cut, early, causes, x, why);
        FailOne(top, op, c, plan, log, cut, next, pending, inflight, x);
        comps := comps[x := Fail(comps[x])];
        causes := causes[x := why];
        AnsweredAfterFail(top, entered, c, comps, plan, log, early, early, next, pending, x);
        assert cut + {} == cut && early + {} == early;
      }
      StruckIsFailAll(top, c, comps, a, x);
    }

    /** Fails the task of node x, which was to be shut down, and what it depends on. */
    method FailNode(next: nat, x: Xname, ghost why: Cause, ghost pending: set<Xname>, ghost inflight: set<Xname>)
      requires Holds(next, pending, inflight) && x in comps && x !in inflight && top.typeOf(x) == Node
      requires Justified(Given(), comps, plan, log, cut, x, why)
      requires BeforeConnectors(inflight) && (BeforeModules(why) ==> NoModuleSent(log))
      modifies this`comps, this`cut, this`early, this`causes
      ensures Holds(next, pending, inflight) && cut == old(cut) + {x}
      ensures early == old(early) + if NoModuleSent(log) then {x} else {}
      ensures comps == FailNodeIn(top, old(comps), x) && comps.Keys == old(comps.Keys)
      ensures forall y :: y in comps && y != x && top.typeOf(y) == Node ==> comps[y] == old(comps)[y]
    {
      hide Inv, Accounted, Justified, Grew, Answered, Dependents, FailAll, Continues, BeforeModules, NoModuleSent,
          BlameNode, FailNodeIn, SuppliesOK, BeforeConnectors;
      ghost var c := comps;
      NoModuleYet(top, op, comps, plan, log, cut, next, pending, inflight);
      FailOne(top, op, c, plan, log, cut, next, pending, inflight, x);
      comps := comps[x := Fail(comps[x])];
      assert comps.Keys == c.Keys;
      FailDependents(next, x, pending, inflight);
      FailsNode(top, c, x);
      NodeStruck(Given(), entered, c, plan, log, old(cut), early, causes, next, pending, x, why);
      causes := BlameNode(causes[x := why], Dependents(top, c.Keys, x, c[x].supplies), x);
      early := early + if NoModuleSent(log) then {x} else {};
    }

    /** No connector has been commanded yet, and only nodes are being waited for. */
    ghost predicate BeforeConnectors(inflight: set<Xname>)
      reads this`log
    {
      && (forall p :: 0 <= p < |log| && log[p].Sent? ==> log[p].phase < 6)
      && (forall y :: y in inflight ==> top.typeOf(y) == Node)
    }

    /** Fails the parent module of node x and, unless another supply keeps it powered, its last On supply. */
    method FailDependents(next: nat, x: Xname, ghost pending: set<Xname>, ghost inflight: set<Xname>)
      requires Inv(top, op, comps, plan, log, cut, next, pending, inflight) && x in comps
      requires top.typeOf(x) == Node && BeforeConnectors(inflight)
      modifies this`comps, this`cut
      ensures Inv(top, op, comps, plan, log, cut, next, pending, inflight)
      ensures Steady() && cut == old(cut) + {x}
      ensures comps == FailAll(old(comps), Dependents(top, old(comps).Keys, x, old(comps)[x].supplies))
    {
      hide Inv, Grew, Continues, FailAll;
      GrewReflexive(top, op, plan);
      var parents := [top.parentOf(top.parentOf(x))];
      var willHavePower, failSupply := SupplyToFail(comps, comps[x].supplies);
      if !willHavePower && failSupply != "" {
        parents := parents + [failSupply];
      }
      ghost var c := comps;
      assert forall p :: p in parents <==> p in Dependents(top, c.Keys, x, c[x].supplies);
      MarkFailed(parents);
      FailingContinues(c, comps);
      MarkedIsFailAll(c, comps, parents, Dependents(top, c.Keys, x, c[x].supplies));
      DependentsStep(top, op, c, comps, plan, log, cut, next, pending, inflight, x, parents, willHavePower, failSupply);
      cut := cut + {x};
    }

    /** Overwrites the status of every listed component that is part of the request. */
    method MarkFailed(parents: seq<Xname>)
      modifies this`comps
      ensures comps.Keys == old(comps.Keys)
      ensures forall y :: y in comps ==>
        comps[y] == if y in parents then Fail(old(comps)[y]) else old(comps)[y]
    {
      var i := 0;
      while i < |parents|
        invariant 0 <= i <= |parents|
        invariant comps.Keys == old(comps.Keys)
        invariant forall y :: y in comps ==>
          comps[y] == if y in parents[..i] then Fail(old(comps)[y]) else old(comps)[y]
      {
        var p := parents[i];
        if p in comps {
          comps := comps[p := Fail(comps[p])];
        }
        i := i + 1;
      }
    }

    /** Gives up on a component in flight in phase k and fails its task. */
    method GiveUp(k: nat, x: Xname, ghost why: Reason, ghost pending: set<Xname>, ghost inflight: set<Xname>)
      requires k < PHASES && Holds(k + 1, pending, inflight) && x in inflight
      requires InPhase(k, inflight) && GoodReason(Given(), comps[x], x, k, why)
      modifies this
      ensures Holds(k + 1, pending - {x}, inflight - {x}) && InPhase(k, inflight - {x})
      ensures Steady() && plan == old(plan) && !Alive(comps[x]) && old(log) <= log
      ensures forall y :: y in comps && y != x && AtPhase(top, plan, k, y) ==> comps[y] == old(comps)[y]
    {
      hide Inv, PhaseAt, Accounted, Extends, Grew, Listed;
      GrewReflexive(top, op, plan);
      InFlightFacts(top, op, comps, plan, log, cut, k, pending, inflight, x);
      NoteGaveUp(k, x, why, pending, inflight);
      assert log[|log| - 1] == GaveUp(k, x, why);
      assert AtPhase(top, plan, k, x);
      FailTask(PhaseAt(k).action, k + 1, x, GivenUp(k, why), pending, inflight - {x});
      DropFailed(top, op, comps, plan, log, cut, k + 1, pending, inflight - {x}, x);
    }

    /** From here on x is no longer waited for. */
    ghost method NoteGaveUp(k: nat, x: Xname, why: Reason, pending: set<Xname>, inflight: set<Xname>)
      requires k < PHASES && Holds(k + 1, pending, inflight)
      modifies this`log
      ensures Holds(k + 1, pending, inflight - {x}) && log == old(log) + [GaveUp(k, x, why)]
    {
      hide Inv, PhaseAt, Accounted, Extends;
      CloseStep(top, op, comps, plan, log, cut, k + 1, pending, inflight, GaveUp(k, x, why));
      Noted(Given(), comps, plan, log, GaveUp(k, x, why));
      AccountedStep(Given(), comps, comps, plan, plan, log, log + [GaveUp(k, x, why)], cut, early, causes);
      log := log + [GaveUp(k, x, why)];
    }

    /** Every component listed is planned for the action of phase k. */
    ghost predicate InPhase(k: nat, xs: set<Xname>)
      requires k < PHASES
      reads this
    {
      forall x :: x in xs ==> x in comps && AtPhase(top, plan, k, x)
    }

    /**
     * Acquires the reservations before the first phase. Exactly the unfinished components that are
     * not granted fail, and what fails with the nodes among them that are to be shut down; exactly
     * the granted ones get their key, and nothing else changes.
     */
    method AcquireReservations()
      requires Holds(0, {}, {}) && log == [] && ToReserve(comps, reservations, {})
      modifies this
      ensures Holds(0, {}, {}) && log == [] && AllReserved()
      ensures Steady() && plan == old(plan)
      ensures Waved(top, old(comps), comps, WithoutKey(old(comps), world.granted), ToShutDown(old(comps)),
                    set x | x in reservations && x in world.granted)
      ensures DeniedNodes(top, old(comps), world.granted) <= early
    {
      hide Holds, Grew, Waved, Continues, FirstAction, ToReserve, AfterAcquire, ToShutDown, NodesIn;
      GrewReflexive(top, op, plan);
      ContinuesReflexive(comps);
      ShowGround();
      ghost var c := comps;
      ghost var hits: set<Xname>, keyed: set<Xname> := {}, {};
      WaveStart(top, c, ToShutDown(c));
      NoNodesIn(top, ToShutDown(c), early);
      var i := 0;
      while i < |reservations|
        invariant 0 <= i <= |reservations| && c == old(comps)
        invariant Holds(0, {}, {}) && log == []
        invariant Steady() && plan == old(plan)
        invariant hits == set x | x in reservations[..i] && x in c && Unfinished(c[x].task) && x !in world.granted
        invariant keyed == set x | x in reservations[..i] && x in world.granted
        invariant Waved(top, c, comps, hits, ToShutDown(c), keyed)
        invariant NodesIn(top, hits, ToShutDown(c)) <= early
      {
        var x := reservations[i];
        assert reservations[..i + 1] == reservations[..i] + [x];
        ghost var before, denied := comps, early;
        AcquireOne(x);
        ContinuesTransitive(old(comps), before, comps);
        AcquireWave(top, c, before, comps, world.granted, hits, keyed, denied, early, x);
        if x in world.granted {
          keyed := keyed + {x};
        } else if Unfinished(c[x].task) {
          hits := hits + {x};
        }
        i := i + 1;
      }
      assert reservations[..|reservations|] == reservations;
      AllListed(c, reservations);
      assert hits == WithoutKey(c, world.granted);
      LeftUnfinished(top, c, comps, hits, ToShutDown(c), keyed);
    }

    /** One reservation: its key goes into the task, or the task fails with its fallout unless it is finished. */
    method AcquireOne(x: Xname)
      requires Holds(0, {}, {}) && log == [] && x in comps
      modifies this
      ensures Holds(0, {}, {}) && log == []
      ensures Steady() && plan == old(plan)
      ensures comps == AfterAcquire(top, world.granted, old(comps), x)
      ensures x !in world.granted && Unfinished(old(comps)[x].task) ==>
                early == old(early) + CutBy(top, FirstAction(old(comps)[x]), x)
    {
      hide Inv, Grew, Accounted, Extends, StruckBy;
      GrewReflexive(top, op, plan);
      if x in world.granted {
        ReserveStep(top, op, comps, plan, cut, x);
        ghost var keyed := comps[x].(task := comps[x].task.(reserved := true));
        Noted(Given(), comps[x := keyed], plan, log, Confirmed(0, x));
        AccountedUpdate(Given(), comps, plan, log, log, cut, early, causes, x, keyed);
        comps := comps[x := comps[x].(task := comps[x].task.(reserved := true))];
      } else if Unfinished(comps[x].task) {
        FailTask(FirstAction(comps[x]), 0, x, NotGranted, {}, {});
      }
    }

    /**
     * Checks the reservations at the start of phase k. Exactly the unfinished components whose
     * reservation is lost fail, with the fallout of the nodes among them if the phase shuts down.
     */
    method CheckReservations(k: nat, ghost pending: set<Xname>)
      requires k < PHASES && Holds(k + 1, pending, {}) && AllReserved()
      requires forall p :: 0 <= p < |log| && log[p].Sent? ==> log[p].phase < k
      modifies this
      ensures Holds(k + 1, pending, {})
      ensures forall x :: x in comps && Unfinished(comps[x].task) ==> x in world.held(k)
      ensures Steady() && plan == old(plan) && log == old(log)
      ensures Waved(top, old(comps), comps, WithoutKey(old(comps), world.held(k)),
                    if PhaseAt(k).action == GracefulShutdown then old(comps).Keys else {}, {})
    {
      hide Inv, Grew, Answered, Accounted, Extends, PhaseAt, Waved, Continues, StruckBy, FailAll;
      GrewReflexive(top, op, plan);
      ContinuesReflexive(comps);
      Ground(top, op, comps, plan, log, cut, k + 1, pending, {});
      ghost var c := comps;
      ghost var down := if PhaseAt(k).action == GracefulShutdown then c.Keys else {};
      ghost var hits: set<Xname> := {};
      WaveStart(top, c, down);
      var i := 0;
      while i < |reservations|
        invariant 0 <= i <= |reservations| && c == old(comps)
        invariant Holds(k + 1, pending, {})
        invariant Steady() && plan == old(plan) && log == old(log)
        invariant hits == set x | x in reservations[..i] && x in c && Unfinished(c[x].task) && x !in world.held(k)
        invariant Waved(top, c, comps, hits, down, {})
      {
        var x := reservations[i];
        assert reservations[..i + 1] == reservations[..i] + [x];
        ghost var before := comps;
        CheckOne(k, x, pending);
        ContinuesTransitive(old(comps), before, comps);
        if x !in world.held(k) && Unfinished(c[x].task) {
          WaveHit(top, c, before, hits, down, {}, x, PhaseAt(k).action);
          hits := hits + {x};
        } else {
          StaysFinished(top, c, before, hits, down, {}, x);
        }
        i := i + 1;
      }
      assert reservations[..|reservations|] == reservations;
      assert hits == WithoutKey(c, world.held(k));
      LeftUnfinished(top, c, comps, hits, down, {});
    }

    /** One reservation: when it is lost, the task fails with its fallout unless it is finished. */
    method CheckOne(k: nat, x: Xname, ghost pending: set<Xname>)
      requires k < PHASES && Holds(k + 1, pending, {}) && x in comps
      requires forall p :: 0 <= p < |log| && log[p].Sent? ==> log[p].phase < k
      modifies this
      ensures Holds(k + 1, pending, {})
      ensures Steady() && plan == old(plan) && log == old(log)
      ensures comps == if x !in world.held(k) && Unfinished(old(comps)[x].task)
                       then FailAll(old(comps), StruckBy(top, old(comps), PhaseAt(k).action, x)) else old(comps)
    {
      hide Inv, Grew, Answered, Accounted, Extends, PhaseAt, StruckBy, FailAll;
      GrewReflexive(top, op, plan);
      ShutdownPhases(k);
      if x !in world.held(k) && Unfinished(comps[x].task) {
        FailTask(PhaseAt(k).action, k + 1, x, Expired(k), pending, {});
      }
    }

    /**
     * Makes up the command for every component of the phase: failed ones are skipped, and a task
     * found waiting for this very action is only waited for. Returns what is in flight and what was sent.
     */
    method SendCommands(k: nat, list: seq<Xname>) returns (inflight: set<Xname>, launched: set<Xname>)
      requires k < PHASES && Holds(k + 1, Elements(list), {})
      requires NoDuplicates(list) && InPhase(k, Elements(list))
      requires forall x :: x in comps && Unfinished(comps[x].task) ==> x in world.granted && x in world.held(k)
      modifies this
      ensures Holds(k + 1, inflight, inflight) && InPhase(k, inflight)
      ensures launched <= inflight && AreWaiting(inflight - launched)
      ensures Steady() && plan == old(plan)
    {
      hide Inv, PhaseAt, Elements, AtPhase, Answered, Grew, Accounted, Extends;
      inflight, launched := {}, {};
      var i := 0;
      StartElements(list);
      GrewReflexive(top, op, plan);
      while i < |list|
        invariant 0 <= i <= |list| && launched <= inflight <= Elements(list)
        invariant inflight !! Elements(list[i..])
        invariant Holds(k + 1, Elements(list[i..]) + inflight, inflight) && InPhase(k, Elements(list))
        invariant AreWaiting(inflight - launched)
        invariant Steady() && plan == old(plan)
      {
        var x := list[i];
        SplitElements(list, i, inflight);
        var takenUp, sent := SendOne(k, x, Elements(list[i..]) + inflight, inflight);
        if takenUp { inflight := inflight + {x}; }
        if sent { launched := launched + {x}; }
        i := i + 1;
      }
      EndElements(list, inflight);
    }

    /** One component of the phase: skipped, taken up again, failed for want of a payload, or sent its command. */
    method SendOne(k: nat, x: Xname, ghost pending: set<Xname>, ghost inflight: set<Xname>)
      returns (takenUp: bool, sent: bool)
      requires k < PHASES && Holds(k + 1, pending, inflight)
      requires InPhase(k, inflight + {x}) && x in pending && x !in inflight
      requires x in comps && Unfinished(comps[x].task) ==> x in world.granted && x in world.held(k)
      modifies this
      ensures Holds(k + 1, if takenUp then pending else pending - {x}, if takenUp then inflight + {x} else inflight)
      ensures Steady() && plan == old(plan)
      ensures var c := old(comps)[x];
        var resumed := c.task.state == Waiting && c.task.operation == OperationOf(PhaseAt(k).action);
        && (sent <==> Alive(c) && !resumed && HasPayload(c, top.typeOf(x), PhaseAt(k).action))
        && (takenUp <==> sent || (Alive(c) && resumed))
        && log == old(log) + (if sent then [Sent(k, x)] else [])
        && (sent ==> comps == old(comps)[x := AfterSend(c, PhaseAt(k).action)])
        && (takenUp && !sent ==> comps == old(comps))
      ensures forall y :: y in inflight ==> comps[y] == old(comps)[y]
    {
      hide Inv, PhaseAt, HasPayload, Grew, AfterSend, Scheduled, Accounted, Extends, FailAll, StruckBy;
      var a := PhaseAt(k).action;
      takenUp, sent := false, false;
      GrewReflexive(top, op, plan);
      AtPhaseFacts(top, op, comps, plan, log, cut, k, pending, inflight, x);
      if comps[x].task.status == Failed {
        DropFailed(top, op, comps, plan, log, cut, k + 1, pending, inflight, x);
      } else if comps[x].task.state == Waiting && comps[x].task.operation == OperationOf(a) {
        ResumeStep(top, op, comps, plan, log, cut, k + 1, pending, inflight, x);
        takenUp := true;
      } else if !HasPayload(comps[x], top.typeOf(x), a) {
        FailUnsendable(k, x, pending, inflight);
      } else {
        Send(k, x, pending, inflight);
        takenUp, sent := true, true;
      }
    }

    /** A component for which no payload can be made up. */
    method FailUnsendable(k: nat, x: Xname, ghost pending: set<Xname>, ghost inflight: set<Xname>)
      requires k < PHASES && Holds(k + 1, pending, inflight) && InPhase(k, inflight + {x}) && x !in inflight
      requires !HasPayload(comps[x], top.typeOf(x), PhaseAt(k).action)
      modifies this
      ensures Holds(k + 1, pending - {x}, inflight) && Steady() && plan == old(plan) && log == old(log)
      ensures comps == FailAll(old(comps), StruckBy(top, old(comps), PhaseAt(k).action, x))
      ensures forall y :: y in inflight ==> y in comps && comps[y] == old(comps)[y]
    {
      hide Inv, PhaseAt, HasPayload, Grew, Accounted, Extends, FailAll, StruckBy;
      GrewReflexive(top, op, plan);
      assert AtPhase(top, plan, k, x);
      AtPhaseFacts(top, op, comps, plan, log, cut, k, pending, inflight, x);
      FailTask(PhaseAt(k).action, k + 1, x, NoPayload(PhaseAt(k).action), pending, inflight);
      DropFailed(top, op, comps, plan, log, cut, k + 1, pending, inflight, x);
    }

    /** The command of phase k goes out to x. */
    method Send(k: nat, x: Xname, ghost pending: set<Xname>, ghost inflight: set<Xname>)
      requires k < PHASES && Holds(k + 1, pending, inflight)
      requires x in pending && x in comps && Alive(comps[x]) && AtPhase(top, plan, k, x)
          && PhaseAt(k).action in Scheduled(op)
      requires Unfinished(comps[x].task) ==> x in world.granted && x in world.held(k)
      requires HasPayload(comps[x], top.typeOf(x), PhaseAt(k).action)
      modifies this`comps, this`log
      ensures Holds(k + 1, pending, inflight + {x}) && Steady()
      ensures comps == old(comps)[x := AfterSend(old(comps)[x], PhaseAt(k).action)]
      ensures log == old(log) + [Sent(k, x)]
    {
      hide Inv, PhaseAt, Grew, Accounted, Extends;
      GrewReflexive(top, op, plan);
      InFlightUnfinished(top, op, comps, plan, log, cut, k + 1, pending, inflight, x);
      ghost var sent := AfterSend(comps[x], PhaseAt(k).action);
      Noted(Given(), comps[x := sent], plan, log, Sent(k, x));
      AccountedUpdate(Given(), comps, plan, log, log + [Sent(k, x)], cut, early, causes, x, sent);
      SendStep(top, op, comps, plan, log, cut, k, pending, inflight, x, PhaseAt(k).action);
      comps := comps[x := AfterSend(comps[x], PhaseAt(k).action)];
      log := log + [Sent(k, x)];
    }

    /**
     * Takes the answers in whatever order they come: a refused command fails its task, and everything left is
     * waited for.
     */
    method ProcessReplies(k: nat, launched: set<Xname>, inflight0: set<Xname>) returns (inflight: set<Xname>)
      requires k < PHASES && Holds(k + 1, inflight0, inflight0) && InPhase(k, inflight0) && launched <= inflight0
      requires AreWaiting(inflight0 - launched)
      modifies this
      ensures Holds(k + 1, inflight, inflight) && InPhase(k, inflight) && inflight <= inflight0
      ensures Steady() && plan == old(plan)
      ensures inflight == inflight0 - (launched * world.refused(k)) && AreWaiting(inflight)
      ensures forall x :: x in launched ==>
        x in comps && if x in world.refused(k) then !Alive(comps[x]) else comps[x] == AfterReply(old(comps)[x])
    {
      hide Holds, PhaseAt, AtPhase, Continues, Grew;
      inflight := inflight0;
      var todo := launched;
      GrewReflexive(top, op, plan);
      ContinuesReflexive(comps);
      while todo != {}
        invariant todo <= launched && inflight == inflight0 - ((launched - todo) * world.refused(k))
        invariant Holds(k + 1, inflight, inflight) && InPhase(k, inflight0)
        invariant Steady() && plan == old(plan)
        invariant forall x :: x in inflight0 && (x in todo || x !in launched) ==> comps[x] == old(comps)[x]
        invariant forall x :: x in launched && x !in todo ==>
          if x in world.refused(k) then !Alive(comps[x]) else comps[x] == AfterReply(old(comps)[x])
      {
        var x :| x in todo;
        todo := todo - {x};
        var refused := x in world.refused(k);
        ghost var before := comps;
        ReplyOne(k, x, refused, inflight);
        ContinuesTransitive(old(comps), before, comps);
        if refused { inflight := inflight - {x}; }
      }
    }

    /** The answer to one command. */
    method ReplyOne(k: nat, x: Xname, refused: bool, ghost inflight: set<Xname>)
      requires k < PHASES && Holds(k + 1, inflight, inflight) && InPhase(k, inflight) && x in inflight
      requires refused ==> x in world.refused(k)
      modifies this
      ensures var rest := if refused then inflight - {x} else inflight;
              Holds(k + 1, rest, rest) && InPhase(k, rest)
      ensures Steady() && plan == old(plan)
      ensures refused ==> !Alive(comps[x])
      ensures !refused ==> comps == old(comps)[x := AfterReply(old(comps)[x])] && log == old(log)
      ensures !refused ==> comps[x].task.state == Waiting && comps[x].task.status == InProgress
      ensures forall y :: y in comps && y != x && AtPhase(top, plan, k, y) ==> comps[y] == old(comps)[y]
    {
      hide Inv, PhaseAt, AtPhase, Grew, Accounted, Extends;
      GrewReflexive(top, op, plan);
      if refused {
        GiveUp(k, x, Refused, inflight, inflight);
      } else {
        InFlightUnfinished(top, op, comps, plan, log, cut, k + 1, inflight, inflight, x);
        ReplyStep(top, op, comps, plan, log, cut, k + 1, inflight, inflight, x);
        Noted(Given(), comps[x := AfterReply(comps[x])], plan, log, Confirmed(k, x));
        AccountedUpdate(Given(), comps, plan, log, log, cut, early, causes, x, AfterReply(comps[x]));
        comps := comps[x := AfterReply(comps[x])];
      }
    }

    /** Every component listed has been commanded and is waited for. */
    ghost predicate AreWaiting(xs: set<Xname>)
      reads this
    {
      forall x :: x in xs ==> x in comps && comps[x].task.state == Waiting
    }

    /** The n-th sweep over the recorded power states of the components being waited for acts on what it reads. */
    method Poll(k: nat, n: nat, inflight0: set<Xname>) returns (inflight: set<Xname>)
      requires k < PHASES && Holds(k + 1, inflight0, inflight0) && InPhase(k, inflight0)
      modifies this
      ensures Holds(k + 1, inflight, inflight) && InPhase(k, inflight0)
      ensures Steady() && plan == old(plan) && old(log) <= log
      ensures inflight == set x | x in inflight0 && world.readings(k, n, x) == Differs
      ensures forall x :: x in inflight ==> comps[x] == old(comps)[x]
      ensures forall x :: x in inflight0 ==> Heeded(k, x, world.readings(k, n, x), old(comps)[x], comps[x], log)
      ensures forall y :: y in comps && y !in inflight0 && AtPhase(top, plan, k, y) ==> comps[y] == old(comps)[y]
    {
      hide Holds, PhaseAt, AtPhase, Grew, Continues, Heeded;
      GrewReflexive(top, op, plan);
      ContinuesReflexive(comps);
      inflight := inflight0;
      var todo := inflight0;
      while todo != {}
        invariant todo <= inflight0
        invariant inflight == set x | x in inflight0 && (x in todo || world.readings(k, n, x) == Differs)
        invariant Holds(k + 1, inflight, inflight) && InPhase(k, inflight0)
        invariant Steady() && plan == old(plan) && old(log) <= log
        invariant forall x :: x in inflight ==> comps[x] == old(comps)[x]
        invariant forall x :: x in inflight0 - todo ==>
                    Heeded(k, x, world.readings(k, n, x), old(comps)[x], comps[x], log)
        invariant forall y :: y in comps && y !in inflight0 && AtPhase(top, plan, k, y) ==> comps[y] == old(comps)[y]
      {
        var x :| x in todo;
        todo := todo - {x};
        ghost var before, earlier := comps, log;
        PollOne(k, n, x, inflight);
        ContinuesTransitive(old(comps), before, comps);
        StillHeeded(k, earlier, log);
        if world.readings(k, n, x) != Differs { inflight := inflight - {x}; }
      }
    }

    /** What one power state reading does: no record fails the task, the wanted state confirms the action. */
    method PollOne(k: nat, n: nat, x: Xname, ghost inflight: set<Xname>)
      requires k < PHASES && Holds(k + 1, inflight, inflight) && InPhase(k, inflight) && x in inflight
      modifies this
      ensures var rest := if world.readings(k, n, x) == Differs then inflight else inflight - {x};
              Holds(k + 1, rest, rest) && InPhase(k, rest)
      ensures Steady() && plan == old(plan) && old(log) <= log
      ensures Heeded(k, x, world.readings(k, n, x), old(comps)[x], comps[x], log)
      ensures world.readings(k, n, x) == Differs ==> comps == old(comps) && log == old(log)
      ensures forall y :: y in comps && y != x && AtPhase(top, plan, k, y) ==> comps[y] == old(comps)[y]
    {
      hide Inv, PhaseAt, Grew, Accounted, Extends, AtPhase;
      GrewReflexive(top, op, plan);
      match world.readings(k, n, x) {
        case Missing => GiveUp(k, x, NoRecord(n), inflight, inflight);
        case Matches =>
          ConfirmOne(k, x, inflight);
          assert log[|log| - 1] == Confirmed(k, x);
        case Differs =>
      }
    }

    /** The wanted power state of x was seen: one action less to go. */
    method ConfirmOne(k: nat, x: Xname, ghost inflight: set<Xname>)
      requires k < PHASES && Holds(k + 1, inflight, inflight) && InPhase(k, inflight) && x in inflight
      modifies this`comps, this`log
      ensures Holds(k + 1, inflight - {x}, inflight - {x}) && Steady()
      ensures comps == old(comps)[x := AfterConfirm(old(comps)[x])] && log == old(log) + [Confirmed(k, x)]
    {
      hide Inv, PhaseAt, Grew, Accounted, Extends;
      GrewReflexive(top, op, plan);
      InFlightUnfinished(top, op, comps, plan, log, cut, k + 1, inflight, inflight, x);
      ConfirmStep(top, op, comps, plan, log, cut, k, inflight, inflight, x, PhaseAt(k).action);
      Noted(Given(), comps[x := AfterConfirm(comps[x])], plan, log, Confirmed(k, x));
      AccountedUpdate(Given(), comps, plan, log, log + [Confirmed(k, x)], cut, early, causes, x,
          AfterConfirm(comps[x]));
      comps := comps[x := AfterConfirm(comps[x])];
      log := log + [Confirmed(k, x)];
    }

    /**
     * The deadline has passed: a graceful shutdown turns into a force-off where one is possible, anything else
     * fails.
     */
    method TimeOut(k: nat, inflight0: set<Xname>)
      requires k < PHASES && Holds(k + 1, inflight0, inflight0) && InPhase(k, inflight0) && !waitForever
      modifies this
      ensures Holds(k + 1, {}, {})
      ensures Steady() && old(log) <= log
      ensures forall x :: x in inflight0 ==> OutOfTime(top, op, k, x, old(comps)[x], comps[x], plan)
      ensures forall y :: y in comps && y !in inflight0 && AtPhase(top, old(plan), k, y) ==> comps[y] == old(comps)[y]
    {
      hide Inv, PhaseAt, Listed, AtPhase, Grew, Answered, Accounted, Extends, OutOfTime;
      GrewReflexive(top, op, plan);
      var inflight := inflight0;
      while inflight != {}
        invariant inflight <= inflight0
        invariant Holds(k + 1, inflight, inflight) && InPhase(k, inflight0)
        invariant Steady() && old(log) <= log
        invariant forall x :: x in inflight ==> comps[x] == old(comps)[x]
        invariant forall x :: x in inflight0 - inflight ==>
          x in comps && OutOfTime(top, op, k, x, old(comps)[x], comps[x], plan)
        invariant forall y :: y in comps && y !in inflight0 && AtPhase(top, old(plan), k, y) ==>
                    comps[y] == old(comps)[y]
        invariant forall y :: AtPhase(top, old(plan), k, y) ==> AtPhase(top, plan, k, y)
      {
        var x :| x in inflight;
        ghost var before := plan;
        TimeOutOne(k, x, inflight);
        GrewTransitive(top, op, old(plan), before, plan);
        KeepsListed(top, op, before, plan, k);
        StillOutOfTime(top, op, before, plan, k);
        inflight := inflight - {x};
      }
    }

    method TimeOutOne(k: nat, x: Xname, ghost inflight: set<Xname>)
      requires k < PHASES && Holds(k + 1, inflight, inflight) && InPhase(k, inflight) && x in inflight && !waitForever
      modifies this
      ensures Holds(k + 1, inflight - {x}, inflight - {x})
      ensures Steady() && old(log) <= log
      ensures OutOfTime(top, op, k, x, old(comps)[x], comps[x], plan)
      ensures forall y :: y in comps && y != x && AtPhase(top, old(plan), k, y) ==> comps[y] == old(comps)[y]
    {
      hide Inv, PhaseAt, Append, Listed, AtPhase, Grew, Accounted, Extends;
      if TurnsToForceOff(op, PhaseAt(k).action, comps[x]) {
        TimeOutFacts(top, op, comps, plan, log, cut, k, inflight, x);
        ForceOffStep(top, op, comps, plan, log, cut, k, inflight, inflight, x);
        KeepsListed(top, op, plan, Append(plan, ForceOff, top.typeOf(x), x), k);
        GrewListed(top, op, plan, Append(plan, ForceOff, top.typeOf(x), x));
        ghost var grown := Append(plan, ForceOff, top.typeOf(x), x);
        Noted(Given(), comps, grown, log, GaveUp(k, x, TimedOut));
        AccountedStep(Given(), comps, comps, plan, grown, log, log + [GaveUp(k, x, TimedOut)], cut, early, causes);
        plan := Append(plan, ForceOff, top.typeOf(x), x);
        log := log + [GaveUp(k, x, TimedOut)];
      } else {
        GiveUp(k, x, TimedOut, inflight, inflight);
      }
    }

    /**
     * Waits until everything in flight has been confirmed, given up on or timed out. The first reading
     * of a component that is not of another state settles it; without one it is waited for until the
     * deadline, if there is one.
     */
    method Confirm(k: nat, inflight0: set<Xname>)
      returns (result: PhaseResult, ghost pending: set<Xname>, ghost polls: nat)
      requires k < PHASES && Holds(k + 1, inflight0, inflight0) && InPhase(k, inflight0) && AreWaiting(inflight0)
      modifies this
      ensures Holds(k + 1, pending, pending) && (result == Done ==> pending == {})
      ensures Steady()
      ensures forall x, n: nat :: x in inflight0 && n < polls && FirstNews(world, k, n, x) ==>
                Heeded(k, x, world.readings(k, n, x), old(comps)[x], comps[x], log)
      ensures forall x :: x in inflight0 && NoNews(world, k, polls, x) ==>
                if result != Done then x in pending && comps[x] == old(comps)[x]
                else !waitForever && OutOfTime(top, op, k, x, old(comps)[x], comps[x], plan)
    {
      hide Inv, PhaseAt, AtPhase, Accounted, Extends, Answered, Grew, Continues, Heeded, FirstNews, NoNews, OutOfTime;
      GrewReflexive(top, op, plan);
      ContinuesReflexive(comps);
      var inflight := inflight0;
      var last: nat := *;
      var n := 0;
      NothingReadYet(world, k, inflight0);
      while n < last
        invariant Holds(k + 1, inflight, inflight) && InPhase(k, inflight0)
        invariant Steady() && plan == old(plan)
        invariant inflight == set x | x in inflight0 && NoNews(world, k, n, x)
        invariant forall x :: x in inflight ==> comps[x] == old(comps)[x]
        invariant forall x, m: nat :: x in inflight0 && m < n && FirstNews(world, k, m, x) ==>
                    Heeded(k, x, world.readings(k, m, x), old(comps)[x], comps[x], log)
        decreases last - n
      {
        var abort: bool := *;
        if abort { return AbortSeen, inflight, n; }
        ghost var before, earlier, waiting := comps, log, inflight;
        inflight := Poll(k, n, inflight);
        ContinuesTransitive(old(comps), before, comps);
        StillHeeded(k, earlier, log);
        NewsOf(world, k, n, inflight0, waiting);
        n := n + 1;
        assert forall x :: x in inflight0 ==> (NoNews(world, k, n, x) <==> x in inflight);
        if inflight == {} { return Done, {}, n; }
        var expired: bool := *;
        if !waitForever && expired {
          before, earlier := comps, log;
          TimeOut(k, inflight);
          ContinuesTransitive(old(comps), before, comps);
          StillHeeded(k, earlier, log);
          return Done, {}, n;
        }
      }
      return Polling, inflight, n;
    }

    /** Gathers the components of phase k, which become pending. */
    method Enter(k: nat) returns (list: seq<Xname>)
      requires k < PHASES && Holds(k, {}, {})
      modifies this`entered
      ensures list == PhaseList(plan, k) && NoDuplicates(list)
      ensures Holds(k + 1, Elements(list), {}) && InPhase(k, Elements(list))
      ensures entered == if k == 0 then Entering(plan, comps) else old(entered)
    {
      hide Inv, PhaseAt, Accounted, Extends;
      list := PhaseList(plan, k);
      EnterPhase(top, op, comps, plan, log, cut, k);
      if k == 0 { entered := set x | x in list && x in comps && Alive(comps[x]); }
      assert Elements(list) == set x | x in list;
      EnterFacts(top, op, comps, plan, log, cut, k);
    }

    /** One phase of the sequence. */
    method RunPhase(k: nat) returns (result: PhaseResult, ghost pending: set<Xname>, ghost inflight: set<Xname>)
      requires k < PHASES && Holds(k, {}, {}) && AllReserved()
      modifies this
      ensures Holds(k + 1, pending, inflight) && (result == Done ==> pending == inflight == {})
      ensures phase == old(phase) && comps.Keys == old(comps.Keys) && Grew(top, op, old(plan), plan) && AllReserved()
      ensures doomed == old(doomed) && forced == old(forced) && Continues(old(comps), comps)
      ensures old(cut) <= cut && old(early) <= early
      ensures entered == if k == 0 then Entering(old(plan), old(comps)) else old(entered)
    {
      hide Inv, PhaseAt, Accounted, Extends, Answered, Grew, Continues, Waved;
      SentSoFar(top, op, comps, plan, log, cut, k);
      GrewReflexive(top, op, plan);
      ContinuesReflexive(comps);
      var list := Enter(k);
      if list == [] {
        assert Elements(list) == {};
        return Done, {}, {};
      }
      var abort: bool := *;
      if abort { return AbortSeen, Elements(list), {}; }
      CheckReservations(k, Elements(list));
      UnfinishedBefore(old(comps), comps);
      ghost var checked := comps;
      var taken, launched := SendCommands(k, list);
      ContinuesTransitive(old(comps), checked, comps);
      ghost var sent := comps;
      taken := ProcessReplies(k, launched, taken);
      ContinuesTransitive(old(comps), sent, comps);
      ghost var answered := comps;
      ghost var polls;
      result, pending, polls := Confirm(k, taken);
      ContinuesTransitive(old(comps), answered, comps);
      UnfinishedBefore(old(comps), comps);
      inflight := pending;
    }

    /** What every observer of the run can rely on, whatever point it has reached. */
    ghost predicate Safe()
      reads this
    {
      && PowerKept(comps, log, cut) && ModulesSpared(top, comps, log, cut, early)
      && AllResumable(op, comps)
      && Permitted(Given(), comps, plan, log) && SentGently(Given(), log)
      && exists next, inflight :: LogOK(top, log, next, inflight)
    }

    /**
     * A whole run over freshly gathered components. At the end of a completed run every task that has
     * not failed had each of its planned actions confirmed, save the entries no phase visits, and every
     * node that entered the shutdown phase is confirmed off, went on to a force-off, or keeps its power.
     */
    method Run() returns (outcome: Outcome)
      requires top.Valid() && op != OpNil && SuppliesOK(top, comps) && AllResumable(op, comps)
      requires forall x :: x in comps ==> comps[x].actionCount == 0
      requires log == [] && cut == early == {} && entered == {} && phase == 0
      modifies this
      ensures comps.Keys == old(comps.Keys) && Safe()
      ensures outcome != Hung ==> Continues(old(comps), comps)
      ensures outcome == Hung <==> !WalksEnd(top, op, old(comps))
      ensures outcome == Hung ==> log == []
      ensures outcome == Completed ==>
                forall x :: x in comps ==> RunOutcome(top, op, log, x, old(comps)[x], comps[x])
      ensures outcome == Completed || outcome == StillWaiting ==>
                GrantedResolved(top, op, world.granted, old(comps), comps, plan, log,
                                outcome == StillWaiting && phase == 0)
      ensures outcome == Completed || outcome == StillWaiting || outcome == Aborted ==>
                DeniedProtected(top, op, world.granted, old(comps), comps, log)
      ensures outcome == Completed || outcome == StillWaiting ==>
                FailedNodesKept(Given(), comps, plan, log, cut, causes)
      ensures outcome != Hung ==> ForceOffsAreDue(top, op, old(comps), log)
      ensures outcome != Hung ==> SentAsPlanned(top, op, old(comps), log)
      ensures outcome == Aborted || outcome == Unreserved ==> forall x :: x in comps ==> !Unfinished(comps[x].task)
      ensures outcome != Hung ==> doomed == set x | x in old(comps) && !Alive(AfterPlanning(top, op, x, old(comps)[x]))
      ensures outcome != Hung ==> FromPlan(top, op, plan, old(comps))
      ensures outcome == Completed || outcome == StillWaiting ==>
          Accounted(Given(), comps, plan, log, cut, early, causes)
    {
      hide Inv, Safe, PlannedExactly, AfterPlanning, RunOutcome, Grew, Holds, Accounted, Extends, AllReserved,
           WalksEnd, Waved, Continues, FromPlan, ToReserve, Entering, Resolved, SentAsPlanned, DeniedNodes,
           GrantedResolved, DeniedProtected, FailedNodesKept, ForceOffsAreDue;
      var hung := SequenceComponents();
      if hung {
        NothingSent();
        return Hung;
      }
      ghost var planned := plan;
      DoomedAtPlanning(top, op, old(comps), comps);
      ghost var sequenced := comps;
      ShowGround();
      GrewReflexive(top, op, plan);
      var reservationsUp: bool := *;
      if !reservationsUp {
        AbortRun(0, {}, {});
        ContinuesTransitive(old(comps), sequenced, comps);
        ShowSent(old(comps), planned);
        return Unreserved;
      }
      AcquireReservations();
      ContinuesTransitive(old(comps), sequenced, comps);
      ghost var reserved, denied, keyed := comps, early, set x | x in reservations && x in world.granted;
      outcome := RunSequence();
      ContinuesTransitive(old(comps), reserved, comps);
      ShowSent(old(comps), planned);
      ShowDenied(old(comps), sequenced, denied);
      if outcome == Completed || outcome == StillWaiting {
        ShowGranted(old(comps), sequenced, planned, reserved, keyed, outcome == StillWaiting && phase == 0);
        ShowFailedNodes();
      }
      if outcome == Completed {
        ShowEnd();
        EndFacts(top, op, old(comps), comps, planned, plan, log, cut);
      }
    }

    /** Every command of a run is one its component was planned for, and could be sent; every force-off was due. */
    lemma ShowSent(c: Components, planned: Plan)
      requires Safe() && Continues(c, comps) && comps.Keys == c.Keys && Grew(top, op, planned, plan)
      requires forall x :: x in c ==> PlannedExactly(top, op, planned, x, c[x])
      requires forced == set x | x in c && Listed(top, planned, x, ForceOff)
      ensures FromPlan(top, op, plan, c) && SentAsPlanned(top, op, c, log) && ForceOffsAreDue(top, op, c, log)
    {
      hide PlannedExactly, Listed, Permitted, SentGently, LogOK, PowerKept, AllResumable, ModulesSpared, FromPlan, Grew,
          Continues, SentAsPlanned, ForceOffsAreDue;
      PlanIsFromPlan(top, op, c, planned, plan);
      SentFromPlan(Given(), c, comps, plan, log);
      ForcedAtPlanning(top, op, c, planned);
      SentWhenDue(Given(), c, comps, plan, log);
    }

    /** Nodes that were to be shut down and were denied their reservation were cut off before anything was sent. */
    lemma ShowDenied(c: Components, sequenced: Components, denied: set<Xname>)
      requires Safe() && denied <= early && op != OpNil && AllResumable(op, c)
      requires sequenced == map x | x in c :: AfterPlanning(top, op, x, c[x])
      requires DeniedNodes(top, sequenced, world.granted) <= denied
      ensures DeniedProtected(top, op, world.granted, c, comps, log)
    {
      hide Protected, ShutsDown, DeniedShutdown, Permitted, SentGently, LogOK, ModulesSpared, PowerKept, DeniedNodes,
          Resumable;
      forall n | n in c && ShutsDown(top, op, n, c[n]) && c[n].task.operation !in {OpForceOff, OpOn}
        ensures DeniedShutdown(top, op, n, c[n])
      {
        FirstIsShutdown(top, op, n, c[n]);
      }
      forall n | n in c && DeniedShutdown(top, op, n, c[n]) && n !in world.granted
        ensures n in comps && Protected(top, comps, log, n)
      {
        InDenied(top, op, c, sequenced, world.granted, n);
        EarlyIsProtected(top, comps, log, cut, early, n);
      }
    }

    /** Nodes that are to be shut down and have their reservation enter the first phase. */
    lemma ShowGranted(c: Components, sequenced: Components, planned: Plan, reserved: Components, keyed: set<Xname>,
                      waiting: bool)
      requires Resolved(waiting) && entered == Entering(planned, reserved) && SuppliesOK(top, sequenced) && top.Valid()
      requires sequenced == map x | x in c :: AfterPlanning(top, op, x, c[x])
      requires Filed(top, planned, sequenced.Keys)
      requires forall x :: x in c ==> PlannedExactly(top, op, planned, x, c[x])
      requires Waved(top, sequenced, reserved, WithoutKey(sequenced, world.granted), ToShutDown(sequenced), keyed)
      ensures GrantedResolved(top, op, world.granted, c, comps, plan, log, waiting)
    {
      forall n | n in c && ShutsDown(top, op, n, c[n]) && n in world.granted ensures n in entered {
        EntersShutdown(top, op, c, sequenced, planned, reserved, world.granted, n);
      }
    }

    lemma ShowFailedNodes()
      requires Safe() && Accounted(Given(), comps, plan, log, cut, early, causes)
      ensures FailedNodesKept(Given(), comps, plan, log, cut, causes)
    {
      hide Accounted, Justified, InShutdown, BeforeModules, KeepsPower, Protected;
      forall n | n in comps && top.typeOf(n) == Node && !Alive(comps[n])
        ensures n in causes && NodeFailed(Given(), comps, plan, log, cut, n, causes[n])
      {
        FailedNodeKeepsPower(Given(), comps, plan, log, cut, early, causes, n);
      }
    }

    lemma NothingSent()
      requires log == [] && cut == early == {} && AllResumable(op, comps)
      ensures Safe()
    {
      assert LogOK(top, log, 0, {});
    }

    /** Works through the phases in order. */
    method RunSequence() returns (outcome: Outcome)
      requires phase == 0 && Holds(0, {}, {}) && AllReserved()
      modifies this
      ensures comps.Keys == old(comps.Keys) && Safe() && Grew(top, op, old(plan), plan)
      ensures outcome in {Completed, Aborted, StillWaiting}
      ensures outcome == Completed ==> Holds(PHASES, {}, {})
      ensures doomed == old(doomed) && forced == old(forced) && Continues(old(comps), comps)
      ensures old(cut) <= cut && old(early) <= early
      ensures outcome == Completed || outcome == StillWaiting ==>
                && entered == Entering(old(plan), old(comps))
                && Resolved(outcome == StillWaiting && phase == 0)
      ensures outcome == Completed || outcome == StillWaiting ==>
          Accounted(Given(), comps, plan, log, cut, early, causes)
      ensures outcome == Aborted ==> forall x :: x in comps ==> !Unfinished(comps[x].task)
    {
      hide Holds, Safe, Grew, Accounted, Extends, Continues, Entering, Resolved;
      GrewReflexive(top, op, plan);
      ContinuesReflexive(comps);
      while phase < PHASES
        invariant phase <= PHASES && Holds(phase, {}, {}) && AllReserved() && comps.Keys == old(comps.Keys)
        invariant doomed == old(doomed) && forced == old(forced) && Continues(old(comps), comps)
        invariant old(cut) <= cut && old(early) <= early
        invariant phase == 0 ==> plan == old(plan) && comps == old(comps)
        invariant phase > 0 ==> entered == Entering(old(plan), old(comps))
        invariant Grew(top, op, old(plan), plan)
      {
        ghost var before, earlier := plan, comps;
        var result, pending, inflight := RunPhase(phase);
        GrewTransitive(top, op, old(plan), before, plan);
        ContinuesTransitive(old(comps), earlier, comps);
        if result == AbortSeen {
          earlier := comps;
          AbortRun(phase + 1, pending, inflight);
          ContinuesTransitive(old(comps), earlier, comps);
          return Aborted;
        }
        if result == Polling {
          ShowSafe(phase + 1, pending, inflight);
          ShowResolved(phase + 1, pending, inflight);
          return StillWaiting;
        }
        Advance();
      }
      ShowSafe(PHASES, {}, {});
      ShowResolved(PHASES, {}, {});
      return Completed;
    }

    method Advance()
      requires phase < PHASES && Holds(phase + 1, {}, {})
      modifies this`phase
      ensures phase == old(phase) + 1 && Holds(phase, {}, {})
    {
      phase := phase + 1;
    }

    /**
     * Every node that entered the first shutdown phase is confirmed off, timed out and on to a
     * force-off, or keeps its power; while that phase is still waiting, it may also be alive.
     */
    ghost predicate Resolved(waiting: bool)
      reads this
    {
      forall x :: x in entered ==> x in comps && ShutdownResolved(top, comps, plan, log, x, waiting)
    }

    lemma ShowResolved(next: nat, pending: set<Xname>, inflight: set<Xname>)
      requires Holds(next, pending, inflight)
      ensures Resolved(next == 1)
    {
      hide Protected, Explained, Permitted, Gentle, ModulesSpared, CountsOK, ConfirmedOK, LogOK, PlanOK, PowerKept;
      forall x | x in early ensures x in comps && Protected(top, comps, log, x) {
        EarlyIsProtected(top, comps, log, cut, early, x);
      }
    }

    lemma ShowGround()
      requires Holds(0, {}, {})
      ensures top.Valid() && SuppliesOK(top, comps) && Filed(top, plan, comps.Keys)
      ensures forall x :: x in reservations ==> x in comps
    {
    }

    lemma ShowEnd()
      requires Holds(PHASES, {}, {})
      ensures Inv(top, op, comps, plan, log, cut, PHASES, {}, {})
    {
    }

    lemma ShowSafe(next: nat, pending: set<Xname>, inflight: set<Xname>)
      requires Holds(next, pending, inflight)
      ensures Safe() && Accounted(Given(), comps, plan, log, cut, early, causes)
    {
    }

    /** An abort was seen, or nothing could be reserved: every unfinished task fails. */
    method AbortRun(ghost next: nat, ghost pending: set<Xname>, ghost inflight: set<Xname>)
      requires Holds(next, pending, inflight)
      modifies this`comps
      ensures comps.Keys == old(comps.Keys) && Safe() && Continues(old(comps), comps)
      ensures forall x :: x in comps ==> !Unfinished(comps[x].task)
    {
      hide Inv, Answered, Explained, ShutdownsCut, Permitted, LogOK, PowerKept, AllResumable, Continues, SentGently,
          ModulesSpared, Extends;
      ghost var c := comps;
      DoAbort();
      FailingContinues(c, comps);
      AbortIsSafe(top, op, c, comps, plan, log, cut, next, pending, inflight);
      Noted(Given(), comps, plan, log, Confirmed(0, ""));
      PermittedStep(Given(), c, comps, plan, plan, log, log);
      ModulesStep(Given(), c, comps, plan, log, log, cut, early);
    }

    /** Marks every unfinished task failed and ends the run. */
    method DoAbort()
      modifies this`comps
      ensures comps.Keys == old(comps.Keys)
      ensures forall x :: x in comps ==>
        comps[x] == if Unfinished(old(comps)[x].task)
                    then old(comps)[x].(task := old(comps)[x].task.(status := Failed)) else old(comps)[x]
    {
      var todo := comps.Keys;
      while todo != {}
        invariant todo <= comps.Keys && comps.Keys == old(comps.Keys)
        invariant forall x :: x in todo ==> comps[x] == old(comps)[x]
        invariant forall x :: x in comps && x !in todo ==>
          comps[x] == if Unfinished(old(comps)[x].task)
                      then old(comps)[x].(task := old(comps)[x].task.(status := Failed)) else old(comps)[x]
      {
        var x :| x in todo;
        todo := todo - {x};
        if Unfinished(comps[x].task) {
          comps := comps[x := comps[x].(task := comps[x].task.(status := Failed))];
        }
      }
    }
  }

  // ---- Lemmas about the phases ----

  /** plan' is plan with force-offs appended for components whose graceful shutdown was planned. */
  ghost predicate Grew(top: Topology, op: Operation, plan: Plan, plan': Plan) {
    forall x, a ::
      && (Listed(top, plan, x, a) ==> Listed(top, plan', x, a))
      && (Listed(top, plan', x, a) && !Listed(top, plan, x, a) ==>
            a == ForceOff && op != OpSoftOff && Listed(top, plan, x, GracefulShutdown))
  }

  lemma GrewReflexive(top: Topology, op: Operation, plan: Plan)
    ensures Grew(top, op, plan, plan)
  {
  }

  lemma GrewListed(top: Topology, op: Operation, plan: Plan, plan': Plan)
    requires Grew(top, op, plan, plan')
    ensures forall x, a :: Listed(top, plan, x, a) ==> Listed(top, plan', x, a)
  {
  }

  lemma GrewTransitive(top: Topology, op: Operation, p: Plan, q: Plan, r: Plan)
    requires Grew(top, op, p, q) && Grew(top, op, q, r)
    ensures Grew(top, op, p, r)
  {
  }

  /** Component c is to get an action for which the sequence has no phase. */
  ghost predicate PlannedBeyond(top: Topology, op: Operation, x: Xname, c: Component) {
    Unfinished(c.task) && exists a :: a in Planned(top, op, x, c).actions && PhaseOf(a, top.typeOf(x)) == PHASES
  }

  /** The entries no phase visits, said of the plan after the run and of the component before it. */
  lemma BeyondExactly(top: Topology, op: Operation, planned: Plan, plan: Plan, x: Xname, c: Component)
    requires PlannedExactly(top, op, planned, x, c) && Grew(top, op, planned, plan)
    ensures Uncovered(top, plan, x) > 0 <==> PlannedBeyond(top, op, x, c)
  {
    hide Listed, Decide;
    if Uncovered(top, plan, x) > 0 {
      var a := if UncoveredIn(top, plan, x, GracefulShutdown) > 0 then GracefulShutdown
               else if UncoveredIn(top, plan, x, ForceOff) > 0 then ForceOff
               else if UncoveredIn(top, plan, x, GracefulRestart) > 0 then GracefulRestart else On;
      var b := if Listed(top, planned, x, a) then a else GracefulShutdown;
      assert Listed(top, planned, x, b) && PhaseOf(b, top.typeOf(x)) == PHASES;
    }
    if PlannedBeyond(top, op, x, c) {
      var a :| a in Planned(top, op, x, c).actions && PhaseOf(a, top.typeOf(x)) == PHASES;
      assert Listed(top, planned, x, a) && Listed(top, plan, x, a);
      DecisionShape(op, top.isController(top.typeOf(x)), true, c);
      assert a in Scheduled(op);
      assert UncoveredIn(top, plan, x, a) > 0;
    }
  }

  /** Action a is the force-off that x's planned shutdown can turn into. */
  predicate IsFallback(top: Topology, op: Operation, x: Xname, c: Component, a: Action) {
    a == ForceOff && op != OpSoftOff && GracefulShutdown in Planned(top, op, x, c).actions
  }

  /** Everything in the plan was decided at planning, or is the force-off of a planned shutdown. */
  ghost predicate FromPlan(top: Topology, op: Operation, plan: Plan, c: Components) {
    forall x, a :: Listed(top, plan, x, a) && x in c ==>
      Unfinished(c[x].task) && (a in Planned(top, op, x, c[x]).actions
                                || IsFallback(top, op, x, c[x], a))
  }

  lemma PlanIsFromPlan(top: Topology, op: Operation, c: Components, planned: Plan, plan: Plan)
    requires forall x :: x in c ==> PlannedExactly(top, op, planned, x, c[x])
    requires Grew(top, op, planned, plan)
    ensures FromPlan(top, op, plan, c)
  {
    hide Planned;
    forall x, a | Listed(top, plan, x, a) && x in c
      ensures Unfinished(c[x].task) && (a in Planned(top, op, x, c[x]).actions
                                        || IsFallback(top, op, x, c[x], a))
    {
      assert PlannedExactly(top, op, planned, x, c[x]);
      assert Listed(top, planned, x, a) || Listed(top, planned, x, GracefulShutdown);
    }
  }

  /**
   * Every command went to a requested component, for an action planned for it or its fallback, that it could be
   * sent.
   */
  ghost predicate SentAsPlanned(top: Topology, op: Operation, c: Components, log: Log) {
    forall p :: 0 <= p < |log| && log[p].Sent? ==> WasPlanned(top, op, c, log[p].phase, log[p].x)
  }

  ghost predicate WasPlanned(top: Topology, op: Operation, c: Components, k: nat, x: Xname) {
    && k < PHASES && x in c && Unfinished(c[x].task)
    && (PhaseAt(k).action in Planned(top, op, x, c[x]).actions || IsFallback(top, op, x, c[x], PhaseAt(k).action))
    && HasPayload(c[x], top.typeOf(x), PhaseAt(k).action)
  }

  lemma SentFromPlan(g: Givens, c: Components, d: Components, plan: Plan, log: Log)
    requires Permitted(g, d, plan, log) && FromPlan(g.top, g.op, plan, c) && Continues(c, d) && d.Keys == c.Keys
    ensures SentAsPlanned(g.top, g.op, c, log)
  {
    hide Listed, PhaseAt, Planned;
    forall p | 0 <= p < |log| && log[p].Sent? ensures WasPlanned(g.top, g.op, c, log[p].phase, log[p].x) {
      assert Allowed(g, d, plan, log[p].phase, log[p].x);
    }
  }

  /** Node n is to be shut down gracefully. */
  predicate ShutsDown(top: Topology, op: Operation, n: Xname, c: Component) {
    top.typeOf(n) == Node && Unfinished(c.task) && GracefulShutdown in Planned(top, op, n, c).actions
  }

  /** Node n is to be worked on, and its task says that a graceful shutdown comes first. */
  predicate DeniedShutdown(top: Topology, op: Operation, n: Xname, c: Component) {
    top.typeOf(n) == Node && Unfinished(AfterPlanning(top, op, n, c).task) && FirstAction(c) == GracefulShutdown
  }

  /**
   * What is known of a node that failed: its cause, and if that arose in its shutdown, that the node
   * keeps its power; its module has failed if requested, and was sent no off if the cause arose
   * before modules were commanded.
   */
  ghost predicate NodeFailed(g: Givens, comps: Components, plan: Plan, log: Log, cut: set<Xname>, n: Xname, why: Cause)
    requires n in comps
  {
    && Justified(g, comps, plan, log, cut, n, why)
    && (InShutdown(why) ==>
          KeepsPower(comps, log, n) && (ModuleOf(g.top, n) in comps ==> !Alive(comps[ModuleOf(g.top, n)])))
    && (InShutdown(why) && BeforeModules(why) ==> Protected(g.top, comps, log, n))
  }

  /** Every failed node has its cause, and what that promises. */
  ghost predicate FailedNodesKept(g: Givens, comps: Components, plan: Plan, log: Log, cut: set<Xname>, causes: Causes) {
    forall n :: n in comps && g.top.typeOf(n) == Node && !Alive(comps[n]) ==>
      n in causes && NodeFailed(g, comps, plan, log, cut, n, causes[n])
  }

  /**
   * The nodes that were to be shut down and were not granted their reservation keep a supply and
   * their module: those whose task says that a shutdown comes first, so all that are planned for one
   * unless an earlier run had come to a force-off or an on.
   */
  ghost predicate DeniedProtected(top: Topology, op: Operation, granted: set<Xname>, c: Components, comps: Components,
                                  log: Log)
  {
    && (forall n :: n in c && DeniedShutdown(top, op, n, c[n]) && n !in granted ==>
          n in comps && Protected(top, comps, log, n))
    && (forall n :: n in c && ShutsDown(top, op, n, c[n]) && n !in granted
                    && c[n].task.operation !in {OpForceOff, OpOn} ==>
          n in comps && Protected(top, comps, log, n))
  }

  /** The nodes that were to be shut down and were granted their reservation. */
  ghost predicate GrantedResolved(top: Topology, op: Operation, granted: set<Xname>, c: Components, comps: Components,
                                  plan: Plan, log: Log, waiting: bool)
  {
    forall n :: n in c && ShutsDown(top, op, n, c[n]) && n in granted ==>
      n in comps && ShutdownResolved(top, comps, plan, log, n, waiting)
  }

  /** Every force-off that was sent was due. */
  ghost predicate ForceOffsAreDue(top: Topology, op: Operation, c: Components, log: Log) {
    forall p :: 0 <= p < |log| && IsForce(log[p]) ==>
      log[p].x in c && ForceOffIsDue(top, op, c[log[p].x], log, p)
  }

  /** The force-off at position p was asked for, taken up again by an init, or followed a timed-out shutdown. */
  ghost predicate ForceOffIsDue(top: Topology, op: Operation, c: Component, log: Log, p: nat)
    requires p < |log|
  {
    || op == OpForceOff
    || (op == OpInit && c.task.operation == OpForceOff)
    || TimedOutBefore(top, log, p, log[p].x)
  }

  /** Planning files force-offs for force-offs, and for inits that had come to one. */
  lemma ForcedAtPlanning(top: Topology, op: Operation, c: Components, planned: Plan)
    requires forall x :: x in c ==> PlannedExactly(top, op, planned, x, c[x])
    ensures forall x :: x in c && Listed(top, planned, x, ForceOff) ==>
              op == OpForceOff || (op == OpInit && c[x].task.operation == OpForceOff)
  {
    hide Decide;
    forall x | x in c && Listed(top, planned, x, ForceOff)
      ensures op == OpForceOff || (op == OpInit && c[x].task.operation == OpForceOff)
    {
      GentleFirst(op, top.isController(top.typeOf(x)), true, c[x]);
    }
  }

  /** Force-offs go out where planning decided them, and else only after a timeout. */
  lemma SentWhenDue(g: Givens, c: Components, comps: Components, plan: Plan, log: Log)
    requires Permitted(g, comps, plan, log) && SentGently(g, log) && comps.Keys == c.Keys
    requires forall x :: x in g.forced && x in c ==>
               g.op == OpForceOff || (g.op == OpInit && c[x].task.operation == OpForceOff)
    ensures ForceOffsAreDue(g.top, g.op, c, log)
  {
    hide PhaseAt, TimedOutBefore;
    forall p | 0 <= p < |log| && IsForce(log[p])
      ensures log[p].x in c && ForceOffIsDue(g.top, g.op, c[log[p].x], log, p)
    {
      assert Allowed(g, comps, plan, log[p].phase, log[p].x);
    }
  }

  // ---- What a reading of the power state does ----

  /** What was read of x, once c and now d, has been acted on. */
  ghost predicate Heeded(k: nat, x: Xname, reading: Reading, c: Component, d: Component, log: Log) {
    match reading
    case Missing => !Alive(d)
    case Matches =>
      && Confirmed(k, x) in log
      && d.actionCount == c.actionCount - 1 && d.task.state == Confirming
      && d.task.status == if d.actionCount == 0 then Succeeded else c.task.status
    case Differs => d == c
  }

  /** The first n readings of x in phase k all show another state. */
  ghost predicate NoNews(world: World, k: nat, n: nat, x: Xname) {
    forall m: nat :: m < n ==> world.readings(k, m, x) == Differs
  }

  /** The n-th reading of x in phase k is the first that settles it. */
  ghost predicate FirstNews(world: World, k: nat, n: nat, x: Xname) {
    NoNews(world, k, n, x) && world.readings(k, n, x) != Differs
  }

  lemma StillHeeded(k: nat, log: Log, log': Log)
    requires log <= log'
    ensures forall x, r, c, d :: Heeded(k, x, r, c, d, log) ==> Heeded(k, x, r, c, d, log')
  {
  }

  lemma NothingReadYet(world: World, k: nat, xs: set<Xname>)
    ensures xs == set x | x in xs && NoNews(world, k, 0, x)
  {
  }

  /** One more reading of everything without news. */
  lemma NewsOf(world: World, k: nat, n: nat, xs: set<Xname>, waiting: set<Xname>)
    requires waiting == set x | x in xs && NoNews(world, k, n, x)
    ensures (set x | x in waiting && world.readings(k, n, x) == Differs) == set x | x in xs
        && NoNews(world, k, n + 1, x)
    ensures forall x, m: nat :: x in xs && m < n + 1 && FirstNews(world, k, m, x) ==>
              (if m == n then x in waiting else x !in waiting) && !NoNews(world, k, n + 1, x)
  {
    forall x, m: nat | x in xs && m < n + 1 && FirstNews(world, k, m, x)
      ensures (if m == n then x in waiting else x !in waiting) && !NoNews(world, k, n + 1, x)
    {
      assert NoNews(world, k, n, x) ==> world.readings(k, m, x) == Differs || m == n;
    }
  }

  /** The deadline has passed for x: its shutdown is on to a force-off where one is possible, anything else fails. */
  ghost predicate OutOfTime(top: Topology, op: Operation, k: nat, x: Xname, c: Component, d: Component, plan: Plan)
    requires k < PHASES
  {
    if PhaseAt(k).action == GracefulShutdown && op != OpSoftOff && ForceOff in c.actions
    then d == c && Listed(top, plan, x, ForceOff) else !Alive(d)
  }

  /** How the shutdown of node n has come out, or still stands. */
  ghost predicate ShutdownResolved(top: Topology, comps: Components, plan: Plan, log: Log, n: Xname, waiting: bool)
    requires n in comps
  {
    || Confirmed(0, n) in log
    || (GaveUp(0, n, TimedOut) in log && Listed(top, plan, n, ForceOff))
    || Protected(top, comps, log, n)
    || (waiting && Alive(comps[n]))
  }

  /** The live components of the first phase. */
  function Entering(plan: Plan, comps: Components): set<Xname> {
    set x | x in PhaseList(plan, 0) && x in comps && Alive(comps[x])
  }

  lemma SameFirst(top: Topology, op: Operation, n: Xname, c: Component)
    ensures FirstAction(AfterPlanning(top, op, n, c)) == FirstAction(c)
  {
  }

  lemma InDenied(top: Topology, op: Operation, c: Components, sequenced: Components, granted: set<Xname>, n: Xname)
    requires sequenced == map x | x in c :: AfterPlanning(top, op, x, c[x])
    requires n in c && DeniedShutdown(top, op, n, c[n]) && n !in granted
    ensures n in DeniedNodes(top, sequenced, granted)
  {
    SameFirst(top, op, n, c[n]);
  }

  /**
   * The action a task says comes first is the one planned first, a shutdown standing in for a
   * restart, if no run has touched the task; after that it is the action its last command was for.
   */
  lemma FirstActionExactly(top: Topology, op: Operation, n: Xname, c: Component, a: Action)
    requires Unfinished(c.task) && op != OpNil && Resumable(op, c.task)
    ensures var actions := Planned(top, op, n, c).actions;
            c.task.state == GatherData && actions != [] ==>
              FirstAction(c) == if actions[0] == GracefulRestart then GracefulShutdown else actions[0]
    ensures c.task.state != GatherData && a in {GracefulShutdown, ForceOff, On} ==>
              (c.task.operation == OperationOf(a) ==> FirstAction(c) == a)
    ensures c.task.state != GatherData && c.task.operation == OperationOf(GracefulRestart) ==>
              FirstAction(c) == GracefulShutdown
  {
    hide Scheduled;
  }

  lemma FirstIsShutdown(top: Topology, op: Operation, n: Xname, c: Component)
    requires ShutsDown(top, op, n, c) && op != OpNil && Resumable(op, c.task)
    requires c.task.operation !in {OpForceOff, OpOn}
    ensures DeniedShutdown(top, op, n, c)
  {
    DecisionShape(op, top.isController(top.typeOf(n)), true, c);
    FirstActionExactly(top, op, n, c, GracefulShutdown);
    if c.task.state != GatherData {
      var a :| a in Scheduled(op) && c.task.operation == OperationOf(a);
    }
  }

  lemma EntersShutdown(top: Topology, op: Operation, c: Components, sequenced: Components, planned: Plan,
                       reserved: Components, granted: set<Xname>, n: Xname)
    requires top.Valid() && SuppliesOK(top, sequenced) && Filed(top, planned, sequenced.Keys)
    requires sequenced == map x | x in c :: AfterPlanning(top, op, x, c[x])
    requires n in c && ShutsDown(top, op, n, c[n]) && n in granted && PlannedExactly(top, op, planned, n, c[n])
    requires exists keyed ::
               Waved(top, sequenced, reserved, WithoutKey(sequenced, granted), ToShutDown(sequenced), keyed)
    ensures n in Entering(planned, reserved)
  {
    hide Decide, FirstAction, Dependents;
    DecisionShape(op, top.isController(top.typeOf(n)), true, c[n]);
    PhaseListMembers(top, planned, sequenced.Keys, 0);
    assert Listed(top, planned, n, GracefulShutdown);
    PhaseOfIsUnique(0, GracefulShutdown, Node);
    assert n in PhaseList(planned, 0);
    var hits, down := WithoutKey(sequenced, granted), ToShutDown(sequenced);
    var keyed :| Waved(top, sequenced, reserved, hits, down, keyed);
    if InWave(top, sequenced, hits, down, n) {
      var m :| IsOrigin(top, sequenced, hits, down, m, n);
      DependentsAreNoNodes(top, sequenced, m, n);
      assert false;
    }
  }

  /** What a completed run has made of component c, now d. */
  ghost predicate RunOutcome(top: Topology, op: Operation, log: Log, x: Xname, c: Component, d: Component) {
    Alive(d) ==>
      && (Unfinished(d.task) <==> PlannedBeyond(top, op, x, c))
      && (Unfinished(c.task) && !Unfinished(d.task) ==>
            forall a :: a in Planned(top, op, x, c).actions ==>
                          || Confirmed(PhaseOf(a, top.typeOf(x)), x) in log
                          || (a == GracefulShutdown && op != OpSoftOff
                              && Confirmed(PhaseOf(ForceOff, top.typeOf(x)), x) in log))
  }

  lemma EndFacts(top: Topology, op: Operation, c: Components, d: Components, planned: Plan, plan: Plan, log: Log,
                 cut: set<Xname>)
    requires Inv(top, op, d, plan, log, cut, PHASES, {}, {})
    requires Grew(top, op, planned, plan) && c.Keys == d.Keys
    requires forall x :: x in c ==> PlannedExactly(top, op, planned, x, c[x])
    ensures forall x :: x in d ==> RunOutcome(top, op, log, x, c[x], d[x])
  {
    hide Inv, Uncovered, Planned, PlannedBeyond;
    forall x | x in d ensures RunOutcome(top, op, log, x, c[x], d[x]) {
      EndOfRun(top, op, d, plan, log, cut, x);
      BeyondExactly(top, op, planned, plan, x, c[x]);
      if Alive(d[x]) && Unfinished(c[x].task) && !Unfinished(d[x].task) {
        forall a | a in Planned(top, op, x, c[x]).actions
          ensures Confirmed(PhaseOf(a, top.typeOf(x)), x) in log ||
                  (a == GracefulShutdown && op != OpSoftOff && Confirmed(PhaseOf(ForceOff, top.typeOf(x)), x) in log)
        {
          assert Listed(top, planned, x, a);
          assert Listed(top, plan, x, a);
        }
      }
    }
  }

  lemma EnterFacts(top: Topology, op: Operation, comps: Components, plan: Plan, log: Log, cut: set<Xname>, k: nat)
    requires k < PHASES && Inv(top, op, comps, plan, log, cut, k + 1, set x | x in PhaseList(plan, k), {})
    ensures forall x :: x in PhaseList(plan, k) ==> x in comps && AtPhase(top, plan, k, x)
    ensures k == 0 ==> forall x :: x in PhaseList(plan, k) ==> top.typeOf(x) == Node
    ensures k == 0 ==> PhaseAt(k).action == GracefulShutdown
  {
    PhaseListMembers(top, plan, comps.Keys, k);
  }

  function Elements(s: seq<Xname>): set<Xname> {
    set x | x in s
  }

  lemma ShutdownPhases(k: nat)
    requires k < PHASES
    ensures k == 0 ==> PhaseAt(k).action == GracefulShutdown
    ensures PhaseAt(k).action == GracefulShutdown ==> k <= 6
  {
  }

  lemma StartElements(s: seq<Xname>)
    ensures Elements(s[0..]) + {} == Elements(s)
  {
  }

  lemma EndElements(s: seq<Xname>, inflight: set<Xname>)
    ensures Elements(s[|s|..]) + inflight == inflight
  {
  }

  /** The first of the remaining components leaves the rest, to be dropped or to go in flight. */
  lemma SplitElements(s: seq<Xname>, i: nat, inflight: set<Xname>)
    requires i < |s| && NoDuplicates(s)
    requires inflight !! Elements(s[i..])
    ensures s[i] in Elements(s) && s[i] in Elements(s[i..]) && s[i] !in inflight
    ensures Elements(s[i + 1..]) + inflight == Elements(s[i..]) + inflight - {s[i]}
    ensures Elements(s[i + 1..]) + (inflight + {s[i]}) == Elements(s[i..]) + inflight
    ensures inflight !! Elements(s[i + 1..]) && inflight + {s[i]} !! Elements(s[i + 1..])
  {
  }

  /** The action a transition takes first on a component, as recorded in its task. */
  function FirstAction(c: Component): Action {
    match c.task.operation
    case OpSoftRestart => GracefulShutdown
    case OpHardRestart => GracefulShutdown
    case OpSoftOff => GracefulShutdown
    case OpOff => GracefulShutdown
    case OpForceOff => ForceOff
    case OpOn => On
    case OpInit => if c.power == PoweredOn then GracefulShutdown else On
    case OpNil => OtherReset("")
  }

  /** The unfinished components outside a set of reserved ones. */
  function WithoutKey(c: Components, ok: set<Xname>): set<Xname> {
    set x | x in c && Unfinished(c[x].task) && x !in ok
  }

  /** The components whose next action is a graceful shutdown. */
  function ToShutDown(c: Components): set<Xname> {
    set x | x in c && FirstAction(c[x]) == GracefulShutdown
  }

  /** The nodes among the unreserved components whose next action is a graceful shutdown. */
  function DeniedNodes(top: Topology, c: Components, ok: set<Xname>): set<Xname> {
    NodesIn(top, WithoutKey(c, ok), ToShutDown(c))
  }

  function NodesIn(top: Topology, hits: set<Xname>, down: set<Xname>): set<Xname> {
    set n | n in hits && n in down && top.typeOf(n) == Node
  }

  lemma InToShutDown(c: Components, x: Xname)
    requires x in c
    ensures x in ToShutDown(c) <==> FirstAction(c[x]) == GracefulShutdown
  {
  }

  /** The components after one reservation has been asked for. */
  function AfterAcquire(top: Topology, granted: set<Xname>, c: Components, x: Xname): Components
    requires x in c
  {
    if x in granted then c[x := c[x].(task := c[x].task.(reserved := true))]
    else if Unfinished(c[x].task) then FailAll(c, StruckBy(top, c, FirstAction(c[x]), x))
    else c
  }

  /** One reservation more: granted, denied to an unfinished task, or of no consequence. */
  lemma AcquireWave(top: Topology, c: Components, before: Components, after: Components, granted: set<Xname>,
                    hits: set<Xname>, keyed: set<Xname>, early: set<Xname>, early': set<Xname>, x: Xname)
    requires top.Valid() && SuppliesOK(top, c) && x in c && x in before
    requires Waved(top, c, before, hits, ToShutDown(c), keyed) && NodesIn(top, hits, ToShutDown(c)) <= early <= early'
    requires after == AfterAcquire(top, granted, before, x)
    requires x !in granted && Unfinished(before[x].task) ==> CutBy(top, FirstAction(before[x]), x) <= early'
    ensures if x in granted then Waved(top, c, after, hits, ToShutDown(c), keyed + {x})
            else if Unfinished(c[x].task) then Waved(top, c, after, hits + {x}, ToShutDown(c), keyed)
            else Waved(top, c, after, hits, ToShutDown(c), keyed)
    ensures var hits' := if x !in granted && Unfinished(c[x].task) then hits + {x} else hits;
            NodesIn(top, hits', ToShutDown(c)) <= early'
  {
    hide Waved, FirstAction, StruckBy, FailAll, ToShutDown, NodesIn;
    if x in granted {
      WaveKey(top, c, before, hits, ToShutDown(c), keyed, x);
    } else if Unfinished(c[x].task) {
      SameFirstAction(top, c, before, hits, ToShutDown(c), keyed, x);
      InToShutDown(c, x);
      WaveHit(top, c, before, hits, ToShutDown(c), keyed, x, FirstAction(before[x]));
      if top.typeOf(x) == Node { NodeHitBefore(top, c, before, hits, ToShutDown(c), keyed, x); }
      NodesInGrows(top, hits, ToShutDown(c), early', x);
    } else {
      StaysFinished(top, c, before, hits, ToShutDown(c), keyed, x);
    }
  }

  lemma NoNodesIn(top: Topology, down: set<Xname>, early: set<Xname>)
    ensures NodesIn(top, {}, down) <= early
  {
  }

  lemma NodesInGrows(top: Topology, hits: set<Xname>, down: set<Xname>, early: set<Xname>, x: Xname)
    requires NodesIn(top, hits, down) <= early
    requires x in down && top.typeOf(x) == Node ==> x in early || x in hits
    ensures NodesIn(top, hits + {x}, down) <= early
  {
  }

  lemma Ground(top: Topology, op: Operation, comps: Components, plan: Plan, log: Log, cut: set<Xname>,
               next: nat, pending: set<Xname>, inflight: set<Xname>)
    requires Inv(top, op, comps, plan, log, cut, next, pending, inflight)
    ensures top.Valid() && SuppliesOK(top, comps)
  {
  }

  lemma SameFirstAction(top: Topology, c: Components, d: Components, hits: set<Xname>, down: set<Xname>,
                        keyed: set<Xname>, x: Xname)
    requires Waved(top, c, d, hits, down, keyed) && x in c
    ensures x in d && FirstAction(d[x]) == FirstAction(c[x])
  {
  }

  lemma StaysFinished(top: Topology, c: Components, d: Components, hits: set<Xname>, down: set<Xname>,
                      keyed: set<Xname>, x: Xname)
    requires Waved(top, c, d, hits, down, keyed) && x in c
    ensures x in d && (!Unfinished(c[x].task) ==> !Unfinished(d[x].task))
  {
  }

  /** A node that has failed in this round was hit itself. */
  lemma NodeHitBefore(top: Topology, c: Components, d: Components, hits: set<Xname>, down: set<Xname>,
                      keyed: set<Xname>, x: Xname)
    requires top.Valid() && SuppliesOK(top, c) && Waved(top, c, d, hits, down, keyed)
    requires x in c && top.typeOf(x) == Node && Unfinished(c[x].task)
    ensures x in d && (!Unfinished(d[x].task) ==> x in hits)
  {
    hide Dependents;
    if InWave(top, c, hits, down, x) && x !in hits {
      var n :| IsOrigin(top, c, hits, down, n, x);
      DependentsAreNoNodes(top, c, n, x);
    }
  }

  lemma AllListed(c: Components, reservations: seq<Xname>)
    requires ToReserve(c, reservations, {})
    ensures forall x :: x in c && Unfinished(c[x].task) ==> x in reservations
  {
  }

  /** What a round of failures leaves unfinished was not hit. */
  lemma LeftUnfinished(top: Topology, c: Components, d: Components, hits: set<Xname>, down: set<Xname>,
                       keyed: set<Xname>)
    requires Waved(top, c, d, hits, down, keyed)
    ensures forall x :: x in d && Unfinished(d[x].task) ==> x in c && Unfinished(c[x].task) && x !in hits
  {
  }

  /** x is planned for the action of phase k. */
  ghost predicate AtPhase(top: Topology, plan: Plan, k: nat, x: Xname)
    requires k < PHASES
  {
    PhaseOf(PhaseAt(k).action, top.typeOf(x)) == k && Listed(top, plan, x, PhaseAt(k).action)
  }

  lemma AtPhaseFacts(top: Topology, op: Operation, comps: Components, plan: Plan, log: Log, cut: set<Xname>,
                     k: nat, pending: set<Xname>, inflight: set<Xname>, x: Xname)
    requires k < PHASES && Inv(top, op, comps, plan, log, cut, k + 1, pending, inflight)
    requires AtPhase(top, plan, k, x)
    requires forall y :: y in inflight ==> AtPhase(top, plan, k, y)
    ensures x in comps && PhaseAt(k).action in Scheduled(op) && (k == 0 ==> PhaseAt(k).action == GracefulShutdown)
    ensures PhaseAt(k).action == GracefulShutdown && top.typeOf(x) == Node ==>
              && (forall p :: 0 <= p < |log| && log[p].Sent? ==> log[p].phase < 6) && NoModuleSent(log)
              && (forall y :: y in inflight ==> top.typeOf(y) == Node)
  {
    hide CountsOK, ConfirmedOK, PowerKept, Ordered, AllResumable;
    if PhaseAt(k).action == GracefulShutdown && top.typeOf(x) == Node {
      assert k == 0;
      forall y | y in inflight ensures top.typeOf(y) == Node {
        assert AtPhase(top, plan, k, y);
      }
    }
  }

  lemma InFlightFacts(top: Topology, op: Operation, comps: Components, plan: Plan, log: Log, cut: set<Xname>,
                      k: nat, pending: set<Xname>, inflight: set<Xname>, x: Xname)
    requires k < PHASES && Inv(top, op, comps, plan, log, cut, k + 1, pending, inflight)
    requires x in inflight && forall y :: y in inflight ==> AtPhase(top, plan, k, y)
    ensures x in comps && (k == 0 ==> PhaseAt(k).action == GracefulShutdown)
    ensures PhaseAt(k).action == GracefulShutdown && top.typeOf(x) == Node ==>
              forall y :: AtPhase(top, plan, k, y) ==> top.typeOf(y) == Node
    ensures PhaseAt(k).action == GracefulShutdown && top.typeOf(x) == Node ==>
              && (forall p :: 0 <= p < |log| && log[p].Sent? ==> log[p].phase < 6) && NoModuleSent(log)
              && (forall y :: y in inflight ==> top.typeOf(y) == Node)
  {
  }

  lemma NoModuleYet(top: Topology, op: Operation, comps: Components, plan: Plan, log: Log, cut: set<Xname>,
                    next: nat, pending: set<Xname>, inflight: set<Xname>)
    requires Inv(top, op, comps, plan, log, cut, next, pending, inflight)
    ensures top.Valid() && SuppliesOK(top, comps) && (next <= 2 ==> NoModuleSent(log))
  {
  }

  /** The components once the shutdown of node x has failed. */
  function FailNodeIn(top: Topology, c: Components, x: Xname): Components
    requires x in c
  {
    FailAll(c[x := Fail(c[x])], Dependents(top, c.Keys, x, c[x].supplies))
  }

  lemma FailsNode(top: Topology, c: Components, x: Xname)
    requires x in c
    ensures var c1 := c[x := Fail(c[x])];
            FailNodeIn(top, c, x) == FailAll(c1, Dependents(top, c1.Keys, x, c1[x].supplies))
  {
    assert c[x := Fail(c[x])].Keys == c.Keys;
  }

  /** Failing node x and then what serves it leaves everything accounted for, the nodes of the first phase as well. */
  lemma NodeStruck(g: Givens, entered: set<Xname>, c: Components, plan: Plan, log: Log, cut: set<Xname>,
                   early: set<Xname>, causes: Causes, next: nat, pending: set<Xname>, x: Xname, why: Cause)
    requires x in c && Accounted(g, c, plan, log, cut, early, causes) && Justified(g, c, plan, log, cut, x, why)
    requires Answered(g.top, entered, c, plan, log, early, next, pending)
    requires g.top.Valid() && SuppliesOK(g.top, c) && g.top.typeOf(x) == Node
    requires (BeforeModules(why) || next <= 2) ==> NoModuleSent(log)
    ensures var early', d := early + (if NoModuleSent(log) then {x} else {}), FailNodeIn(g.top, c, x);
            var parents := Dependents(g.top, c.Keys, x, c[x].supplies);
            && d.Keys == c.Keys && (forall y :: y in d && y != x && g.top.typeOf(y) == Node ==> d[y] == c[y])
            && Accounted(g, d, plan, log, cut + {x}, early', BlameNode(causes[x := why], parents, x))
            && Answered(g.top, entered, d, plan, log, early', next, pending)
  {
    hide Accounted, Answered, Justified, BeforeModules, NoModuleSent, BlameNode, Serves, Dependents;
    var d, parents := FailNodeIn(g.top, c, x), Dependents(g.top, c.Keys, x, c[x].supplies);
    assert d.Keys == c.Keys;
    DependentsServe(g.top, c, x);
    AccountedStrike(g, c, d, plan, log, cut, early, causes, x, why, parents);
    AnsweredAfterFail(g.top, entered, c, d, plan, log, early, early + if NoModuleSent(log) then {x} else {}, next,
                      pending, x);
  }

  lemma ListedAreKnown(top: Topology, op: Operation, comps: Components, plan: Plan)
    requires Inv(top, op, comps, plan, [], {}, 0, {}, {})
    ensures forall x, a :: Listed(top, plan, x, a) ==> x in comps
  {
  }

  lemma InFlightUnfinished(top: Topology, op: Operation, comps: Components, plan: Plan, log: Log, cut: set<Xname>,
                           next: nat, pending: set<Xname>, inflight: set<Xname>, x: Xname)
    requires Inv(top, op, comps, plan, log, cut, next, pending, inflight) && x in pending
    requires x in inflight || (x in comps && Alive(comps[x]))
    ensures x in comps && Unfinished(comps[x].task)
  {
  }

  lemma UnfinishedBefore(c: Components, d: Components)
    requires Continues(c, d)
    ensures forall x :: x in d && Unfinished(d[x].task) ==> x in c && Unfinished(c[x].task)
  {
  }

  lemma ContinuesReflexive(c: Components)
    ensures Continues(c, c)
  {
  }

  /** The task and its fallout, failed one after the other, are failed together. */
  lemma StruckIsFailAll(top: Topology, c: Components, d: Components, a: Action, x: Xname)
    requires x in c
    requires d == if a == GracefulShutdown && top.typeOf(x) == Node
                  then FailAll(c[x := Fail(c[x])], Dependents(top, c.Keys, x, c[x].supplies)) else c[x := Fail(c[x])]
    ensures d == FailAll(c, StruckBy(top, c, a, x)) && Continues(c, d) && !Alive(d[x])
  {
    hide Dependents;
    assert d.Keys == c.Keys;
  }

  lemma MarkedIsFailAll(c: Components, d: Components, parents: seq<Xname>, xs: set<Xname>)
    requires d.Keys == c.Keys && forall y :: y in d ==> d[y] == if y in parents then Fail(c[y]) else c[y]
    requires forall p :: p in parents <==> p in xs
    ensures d == FailAll(c, xs)
  {
  }

  lemma FailingContinues(c: Components, d: Components)
    requires c.Keys == d.Keys && forall x :: x in d ==> d[x] == c[x] || d[x] == Fail(c[x])
    ensures Continues(c, d)
  {
  }

  lemma ContinuesTransitive(c: Components, d: Components, e: Components)
    requires Continues(c, d) && Continues(d, e)
    ensures Continues(c, e)
  {
  }

  lemma TimeOutFacts(top: Topology, op: Operation, comps: Components, plan: Plan, log: Log, cut: set<Xname>,
                     k: nat, inflight: set<Xname>, x: Xname)
    requires k < PHASES && Inv(top, op, comps, plan, log, cut, k + 1, inflight, inflight)
    requires x in inflight && op != OpSoftOff && PhaseAt(k).action == GracefulShutdown
    requires forall y :: y in inflight ==> AtPhase(top, plan, k, y)
    ensures ForceOff in Scheduled(op)
    ensures Listed(top, Append(plan, ForceOff, top.typeOf(x), x), x, ForceOff)
    ensures Grew(top, op, plan, Append(plan, ForceOff, top.typeOf(x), x))
    ensures PhaseOf(GracefulShutdown, top.typeOf(x)) == k && Listed(top, plan, x, GracefulShutdown)
    ensures GrowsGently(top, plan, Append(plan, ForceOff, top.typeOf(x), x), log, log + [GaveUp(k, x, TimedOut)])
  {
    var log' := log + [GaveUp(k, x, TimedOut)];
    assert log'[|log|] == GaveUp(PhaseOf(GracefulShutdown, top.typeOf(x)), x, TimedOut);
    assert TimedOutBefore(top, log', |log'|, x);
  }

  lemma StillOutOfTime(top: Topology, op: Operation, plan: Plan, plan': Plan, k: nat)
    requires k < PHASES && Grew(top, op, plan, plan')
    ensures forall x, c, d :: OutOfTime(top, op, k, x, c, d, plan) ==> OutOfTime(top, op, k, x, c, d, plan')
  {
  }

  lemma KeepsListed(top: Topology, op: Operation, plan: Plan, plan': Plan, k: nat)
    requires k < PHASES && Grew(top, op, plan, plan')
    ensures forall y :: AtPhase(top, plan, k, y) ==> AtPhase(top, plan', k, y)
    ensures forall y :: Listed(top, plan, y, ForceOff) ==> Listed(top, plan', y, ForceOff)
  {
  }

  lemma SentSoFar(top: Topology, op: Operation, comps: Components, plan: Plan, log: Log, cut: set<Xname>, k: nat)
    requires Inv(top, op, comps, plan, log, cut, k, {}, {})
    ensures forall p :: 0 <= p < |log| && log[p].Sent? ==> log[p].phase < k
  {
  }

  lemma ReserveStep(top: Topology, op: Operation, c: Components, plan: Plan, cut: set<Xname>, x: Xname)
    requires Inv(top, op, c, plan, [], cut, 0, {}, {}) && x in c
    ensures Inv(top, op, c[x := c[x].(task := c[x].task.(reserved := true))], plan, [], cut, 0, {}, {})
  {
    hide PlanOK, ConfirmedOK, LogOK, PowerKept, Ahead, Uncovered;
    var d := c[x := c[x].(task := c[x].task.(reserved := true))];
    assert d.Keys == c.Keys;
    PowerKeptStep(c, d, [], [], cut);
    if Alive(c[x]) {
      TaskStep(top, op, c, d, plan, [], [], 0, {}, x);
    } else {
      UntouchedStep(top, op, c, d, plan, [], 0, {}, x);
    }
  }

  lemma UntouchedStep(top: Topology, op: Operation, c: Components, d: Components, plan: Plan, log: Log,
                      next: nat, pending: set<Xname>, x: Xname)
    requires AllResumable(op, c) && CountsOK(top, c, plan, next, pending)
        && ConfirmedOK(top, c, plan, log, next, pending)
    requires x in c && !Alive(c[x]) && x in d && d == c[x := d[x]] && !Alive(d[x])
    requires d[x].task.state == c[x].task.state && d[x].task.operation == c[x].task.operation
    ensures AllResumable(op, d) && CountsOK(top, d, plan, next, pending)
        && ConfirmedOK(top, d, plan, log, next, pending)
  {
    hide Ahead, Uncovered;
    assert Resumable(op, c[x].task);
    forall y | y in d && Alive(d[y]) ensures CountOK(top, d[y], plan, y, next, pending) {
      assert CountOK(top, c[y], plan, y, next, pending);
    }
  }

  lemma AbortIsSafe(top: Topology, op: Operation, c: Components, d: Components, plan: Plan, log: Log, cut: set<Xname>,
                    next: nat, pending: set<Xname>, inflight: set<Xname>)
    requires Inv(top, op, c, plan, log, cut, next, pending, inflight)
    requires d.Keys == c.Keys
    requires forall x :: x in d ==>
      d[x] == if Unfinished(c[x].task) then c[x].(task := c[x].task.(status := Failed)) else c[x]
    ensures PowerKept(d, log, cut) && AllResumable(op, d) && LogOK(top, log, next, inflight)
  {
    assert Evolves(c, d);
    PowerKeptStep(c, d, log, log, cut);
    forall x | x in d ensures Resumable(op, d[x].task) {
      assert Resumable(op, c[x].task);
    }
  }

  // ---- Lemmas about the planner's result and the failed supply ----

  lemma {:induction false} AncestorsUnchanged(top: Topology, c: Components, d: Components, id: Xname, bound: nat)
    requires c.Keys == d.Keys
    ensures NoneRequested(top, c, id, bound) == NoneRequested(top, d, id, bound)
    decreases bound
  {
    if bound > 0 { AncestorsUnchanged(top, c, d, top.parentOf(id), bound - 1); }
  }

  /** Whatever point planning has reached, its tasks are such that a later run can take them up. */
  lemma PlanningResumable(top: Topology, op: Operation, c: Components, d: Components, plan: Plan, todo: set<Xname>)
    requires PlanningState(top, op, c, d, plan, todo) && AllResumable(op, c)
    ensures d.Keys == c.Keys && AllResumable(op, d)
  {
    forall x | x in d ensures Resumable(op, d[x].task) {
      assert Resumable(op, c[x].task);
      if x !in todo && Unfinished(c[x].task) {
        DecisionShape(op, top.isController(top.typeOf(x)), true, c[x]);
      }
    }
  }

  lemma PlanEstablishesInv(top: Topology, op: Operation, c: Components, d: Components, plan: Plan)
    requires top.Valid() && op != OpNil && SuppliesOK(top, c) && AllResumable(op, c)
    requires forall x :: x in c ==> c[x].actionCount == 0
    requires PlanningState(top, op, c, d, plan, {})
    ensures Inv(top, op, d, plan, [], {}, 0, {}, {})
  {
    assert AllResumable(op, d) && CountsOK(top, d, plan, 0, {}) by { PlanCounts(top, op, c, d, plan); }
    assert PlanOK(top, op, d.Keys, plan, 0, {}) by { PlanIsOK(top, op, c, d, plan); }
  }

  lemma PlanningDone(top: Topology, op: Operation, c: Components, d: Components, plan: Plan)
    requires PlanningState(top, op, c, d, plan, {})
    ensures d == map x | x in c :: AfterPlanning(top, op, x, c[x])
    ensures forall x :: x in d ==> PlannedExactly(top, op, plan, x, c[x])
  {
  }

  lemma DoomedAtPlanning(top: Topology, op: Operation, c: Components, d: Components)
    requires d == map x | x in c :: AfterPlanning(top, op, x, c[x])
    ensures (set x | x in d && !Alive(d[x])) == set x | x in c && !Alive(AfterPlanning(top, op, x, c[x]))
    ensures Continues(c, d)
  {
  }

  lemma PlanCounts(top: Topology, op: Operation, c: Components, d: Components, plan: Plan)
    requires op != OpNil && AllResumable(op, c)
    requires forall x :: x in c ==> c[x].actionCount == 0
    requires PlanningState(top, op, c, d, plan, {})
    ensures AllResumable(op, d) && CountsOK(top, d, plan, 0, {})
  {
    hide Ahead, Uncovered, Resumable, PlanCount, PlannedExactly, AfterPlanning;
    forall x | x in d ensures Resumable(op, d[x].task) && CountOK(top, d[x], plan, x, 0, {}) {
      PlanMatchesCount(top, op, plan, x, c[x]);
      PlanCountSplits(top, plan, x);
    }
  }

  lemma PlanIsOK(top: Topology, op: Operation, c: Components, d: Components, plan: Plan)
    requires op != OpNil && AllResumable(op, c) && d.Keys == c.Keys && Filed(top, plan, d.Keys)
    requires forall x :: x in c ==> c[x].actionCount == 0
    requires forall x :: x in d ==> PlannedExactly(top, op, plan, x, c[x])
    ensures PlanOK(top, op, d.Keys, plan, 0, {})
  {
    forall x | ShutdownAhead(top, plan, x, 0, {}) ensures !Listed(top, plan, x, ForceOff) {
      PlanMatchesCount(top, op, plan, x, c[x]);
    }
    forall a, t, x | x in ListAt(plan, a, t) ensures a in Scheduled(op) {
      assert Listed(top, plan, x, a);
      DecisionShape(op, top.isController(top.typeOf(x)), true, c[x]);
    }
  }

  lemma FailOne(top: Topology, op: Operation, c: Components, plan: Plan, log: Log, cut: set<Xname>,
                next: nat, pending: set<Xname>, inflight: set<Xname>, x: Xname)
    requires Inv(top, op, c, plan, log, cut, next, pending, inflight)
    requires x in c && x !in inflight
    ensures Inv(top, op, c[x := c[x].(task := c[x].task.(status := Failed))], plan, log, cut, next, pending, inflight)
  {
    hide PlanOK, CountsOK, ConfirmedOK, LogOK, PowerKept, Requested, SuppliesOK, AllResumable;
    FailStep(top, op, c, c[x := c[x].(task := c[x].task.(status := Failed))], plan, log, cut, next, pending, inflight);
  }

  /** Failing the module and the chosen supply of node x keeps the run invariant, and keeps x powered. */
  lemma DependentsStep(top: Topology, op: Operation, c: Components, d: Components, plan: Plan, log: Log,
                       cut: set<Xname>,
                       next: nat, pending: set<Xname>, inflight: set<Xname>,
                       x: Xname, parents: seq<Xname>, willHavePower: bool, failSupply: Xname)
    requires Inv(top, op, c, plan, log, cut, next, pending, inflight)
    requires x in c && top.typeOf(x) == Node
    requires forall p :: 0 <= p < |log| && log[p].Sent? ==> log[p].phase < 6
    requires forall y :: y in inflight ==> top.typeOf(y) == Node
    requires parents == [top.parentOf(top.parentOf(x))] + if !willHavePower
        && failSupply != "" then [failSupply] else []
    requires willHavePower <==> PoweredElsewhere(c.Keys, c[x].supplies)
    requires !willHavePower ==> failSupply == LastOn(c[x].supplies)
    requires d.Keys == c.Keys
    requires forall y :: y in d ==>
      d[y] == if y in parents then Fail(c[y]) else c[y]
    ensures Inv(top, op, d, plan, log, cut + {x}, next, pending, inflight)
    ensures x !in parents && forall y :: y in d && top.typeOf(y) == Node ==> d[y] == c[y]
  {
    hide PlanOK, CountsOK, ConfirmedOK, PowerKept, KeepsPower, AllResumable, Ordered;
    assert top.typeOf(parents[0]) == ComputeModule;
    if |parents| > 1 {
      assert failSupply == parents[1];
      var s := c[x].supplies;
      assert Supply(failSupply, PoweredOn) in s;
      var i :| 0 <= i < |s| && s[i] == Supply(failSupply, PoweredOn);
      assert top.typeOf(s[i].id) == CabinetPDUPowerConnector;
    }
    assert forall y :: y in parents ==> top.typeOf(y) != Node;
    assert Evolves(c, d);
    FailStep(top, op, c, d, plan, log, cut, next, pending, inflight);
    NodeKeepsPower(top, c, d, log, x, willHavePower, failSupply);
    PowerKeptAdd(d, log, cut, x);
  }

  lemma PowerKeptAdd(comps: Components, log: Log, cut: set<Xname>, x: Xname)
    requires PowerKept(comps, log, cut) && x in comps && KeepsPower(comps, log, x)
    ensures PowerKept(comps, log, cut + {x})
  {
  }

  /** Before the connector phases, a node whose dependents were failed has a supply the run spares. */
  lemma NodeKeepsPower(top: Topology, c: Components, d: Components, log: Log, x: Xname, willHavePower: bool,
                       failSupply: Xname)
    requires top.Valid() && SuppliesOK(top, c) && Requested(c, log) && x in c
    requires Evolves(c, d)
    requires forall p :: 0 <= p < |log| && log[p].Sent? ==>
                           && log[p].phase < 6
                           && PhaseOf(PhaseAt(log[p].phase).action, top.typeOf(log[p].x)) == log[p].phase
    requires willHavePower <==> PoweredElsewhere(c.Keys, c[x].supplies)
    requires !willHavePower ==> failSupply == LastOn(c[x].supplies)
    requires !willHavePower && failSupply != "" && failSupply in d ==> !Alive(d[failSupply])
    ensures KeepsPower(d, log, x)
  {
    var s := c[x].supplies;
    assert d[x].supplies == s;
    if HasOnSupply(d[x]) {
      var i: int;
      if willHavePower {
        i :| 0 <= i < |s| && s[i].id !in c && s[i].state == PoweredOn;
      } else {
        assert Supply(failSupply, PoweredOn) in s;
        i :| 0 <= i < |s| && s[i] == Supply(failSupply, PoweredOn);
      }
      assert top.typeOf(s[i].id) == CabinetPDUPowerConnector;
      assert SentNoOff(log, s[i].id);
      assert Spared(d, log, d[x].supplies[i]);
    }
  }
}
