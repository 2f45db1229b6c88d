/** A run that completes and leaves a task unfinished, and one that never gets past planning. */
module EngineCases {
  import opened PowerTypes
  import opened PowerSequence
  import opened Planner
  import opened Payloads
  import opened RunInvariant
  import opened Blame
  import opened Engine

  const SWITCH := "x0w1"

  /** A world with one management switch. */
  function OneSwitch(): Topology {
    Topology((x: Xname) => if x == SWITCH then MgmtSwitch else HMSTypeInvalid, (x: Xname) => "", t => false)
  }

  /** A switch that is off, asked to be turned on. */
  const OFF_SWITCH := Component(PoweredOff, {OpOn}, {On}, [], true, Task(OpOn, GatherData, New, false), 0)

  lemma SwitchFacts()
    ensures OneSwitch().Valid() && OneSwitch().typeOf(SWITCH) == MgmtSwitch
    ensures Planned(OneSwitch(), OpOn, SWITCH, OFF_SWITCH).actions == [On]
    ensures PlannedBeyond(OneSwitch(), OpOn, SWITCH, OFF_SWITCH)
  {
    assert |SWITCH| == 4;
    assert On in Planned(OneSwitch(), OpOn, SWITCH, OFF_SWITCH).actions;
  }

  /** Nothing of the plan for a switch is ever sent, so there is no cause for its task to fail. */
  lemma NoCause(g: Givens, comps: Components, plan: Plan, log: Log, cut: set<Xname>, why: Cause)
    requires g.top == OneSwitch() && SWITCH in comps && comps[SWITCH].actions == {On}
    requires forall a :: Listed(g.top, plan, SWITCH, a) ==> a == On
    requires SWITCH in g.world.granted && (forall k :: SWITCH in g.world.held(k)) && SWITCH !in g.doomed
    ensures !Justified(g, comps, plan, log, cut, SWITCH, why)
  {
    SwitchFacts();
  }

  /**
   * A transition that turns on the switch, with its reservation granted and held: when it completes,
   * the task is neither succeeded nor failed, because no phase of the sequence turns on a switch.
   */
  method SwitchStaysUnfinished(world: World) returns (outcome: Outcome, left: Task)
    requires SWITCH in world.granted && forall k :: SWITCH in world.held(k)
    ensures outcome != Hung
    ensures outcome == Completed ==> Unfinished(left)
  {
    hide Justified, PlannedBeyond, Transition.Safe;
    SwitchFacts();
    var comps := map[SWITCH := OFF_SWITCH];
    assert Resumable(OpOn, OFF_SWITCH.task);
    var run := new Transition(OneSwitch(), OpOn, false, world, comps);
    outcome := run.Run();
    left := run.comps[SWITCH].task;
    if outcome == Completed {
      assert RunOutcome(run.top, run.op, run.log, SWITCH, OFF_SWITCH, run.comps[SWITCH]);
      if !Alive(run.comps[SWITCH]) {
        NoCause(run.Given(), run.comps, run.plan, run.log, run.cut, run.causes[SWITCH]);
      }
    }
  }

  /** A node and its module, both on, asked to be restarted softly. */
  const RESTARTED := Component(PoweredOn, {OpSoftRestart}, {GracefulRestart}, [], true,
                               Task(OpSoftRestart, GatherData, New, false), 0)

  /** A soft restart of a node together with its module hangs in planning, whatever the world is like. */
  method RestartWithModuleHangs(world: World) returns (outcome: Outcome)
    ensures outcome == Hung
  {
    hide Transition.Safe, NoneRequested, Halts;
    OneNodeIsValid();
    assert |NODE| == 10 && |BMC| == 8 && |MODULE| == 6;
    var comps := map[NODE := RESTARTED, MODULE := RESTARTED];
    assert Resumable(OpSoftRestart, RESTARTED.task);
    WalkNeverEnds(comps, 0);
    WalkHaltsExactly(OneNode(), comps, Walk(OneNode().parentOf(NODE), true));
    assert !WalkEnds(OneNode(), OpSoftRestart, comps, NODE);
    var run := new Transition(OneNode(), OpSoftRestart, false, world, comps);
    outcome := run.Run();
  }
}
