/** Why a task of a run failed: every failure has a cause that can still be checked afterwards. */
module Blame {
  import opened PowerTypes
  import opened PowerSequence
  import opened Planner
  import opened Payloads
  import opened RunInvariant
  import opened Fallout

  datatype Cause =
    | AtPlanning
    | NotGranted
    | Expired(phase: nat)
    | NoPayload(action: Action)
    | GivenUp(phase: nat, why: Reason)
    | DependencyOf(node: Xname)

  /** What a look at the recorded power state finds: no record, the wanted state, or another. */
  datatype Reading = Missing | Matches | Differs

  /**
   * What the run cannot influence: the reservations granted and those still valid before each phase,
   * the components whose controllers refuse the command of a phase, and what each look at a
   * component's power state finds, by phase and number of the look.
   */
  datatype World = World(
    granted: set<Xname>,
    held: nat -> set<Xname>,
    refused: nat -> set<Xname>,
    readings: (nat, nat, Xname) -> Reading)

  /** The run's own settings, its world, and the tasks that planning failed or filed under a force-off. */
  datatype Givens = Givens(
    top: Topology,
    op: Operation,
    waitForever: bool,
    world: World,
    doomed: set<Xname>,
    forced: set<Xname>)

  /** Whether a component whose command for action a timed out is tried again with a force-off. */
  predicate TurnsToForceOff(op: Operation, a: Action, c: Component) {
    a == GracefulShutdown && op != OpSoftOff && ForceOff in c.actions
  }

  /** A reason to give up on component c in phase k holds good. */
  predicate GoodReason(g: Givens, c: Component, x: Xname, k: nat, why: Reason)
    requires k < PHASES
  {
    match why
    case Refused => x in g.world.refused(k)
    case NoRecord(n) => g.world.readings(k, n, x) == Missing
    case TimedOut => !g.waitForever && !TurnsToForceOff(g.op, PhaseAt(k).action, c)
  }

  /** x is the module a node sits in, or a supply of it recorded On. */
  predicate Serves(top: Topology, c: Component, n: Xname, x: Xname) {
    x == top.parentOf(top.parentOf(n)) || Supply(x, PoweredOn) in c.supplies
  }

  ghost predicate Justified(g: Givens, comps: Components, plan: Plan, log: Log, cut: set<Xname>, x: Xname, why: Cause)
    requires x in comps
  {
    match why
    case AtPlanning => x in g.doomed
    case NotGranted => x !in g.world.granted
    case Expired(k) => k < PHASES && x !in g.world.held(k)
    case NoPayload(a) => Listed(g.top, plan, x, a) && !HasPayload(comps[x], g.top.typeOf(x), a)
    case GivenUp(k, why) =>
      && k < PHASES && PhaseOf(PhaseAt(k).action, g.top.typeOf(x)) == k && Listed(g.top, plan, x, PhaseAt(k).action)
      && GaveUp(k, x, why) in log && GoodReason(g, comps[x], x, k, why)
    case DependencyOf(n) =>
      && n in cut && n in comps && g.top.typeOf(n) == Node
      && !Alive(comps[n]) && Serves(g.top, comps[n], n, x)
  }

  type Causes = map<Xname, Cause>

  /** Every failed task has a cause. */
  ghost predicate Explained(g: Givens, comps: Components, plan: Plan, log: Log, cut: set<Xname>, causes: Causes) {
    forall x :: x in comps && !Alive(comps[x]) ==> x in causes && Justified(g, comps, plan, log, cut, x, causes[x])
  }

  /** The cause arose while the component was to be shut down gracefully. */
  predicate InShutdown(why: Cause) {
    match why
    case NoPayload(a) => a == GracefulShutdown
    case Expired(k) => k < PHASES && PhaseAt(k).action == GracefulShutdown
    case GivenUp(k, _) => k < PHASES && PhaseAt(k).action == GracefulShutdown
    case _ => false
  }

  /** The cause arose before any module had been commanded. */
  predicate BeforeModules(why: Cause) {
    match why
    case NoPayload(a) => a == GracefulShutdown
    case Expired(k) => k <= 2
    case GivenUp(k, _) => k < 2
    case _ => false
  }

  /** The nodes that failed while they were to be shut down are among those cut off, in time for their module or not. */
  ghost predicate ShutdownsCut(top: Topology, comps: Components, cut: set<Xname>, early: set<Xname>, causes: Causes) {
    forall n :: n in comps && top.typeOf(n) == Node && !Alive(comps[n]) && n in causes && InShutdown(causes[n]) ==>
      n in cut && (BeforeModules(causes[n]) ==> n in early)
  }

  /** A command was allowed: requested, reserved and still held, planned for the action, and able to be sent it. */
  ghost predicate Allowed(g: Givens, comps: Components, plan: Plan, k: nat, x: Xname) {
    && k < PHASES && x in comps && x in g.world.granted && x in g.world.held(k)
    && PhaseOf(PhaseAt(k).action, g.top.typeOf(x)) == k
    && Listed(g.top, plan, x, PhaseAt(k).action) && HasPayload(comps[x], g.top.typeOf(x), PhaseAt(k).action)
  }

  /** Every command was allowed. */
  ghost predicate Permitted(g: Givens, comps: Components, plan: Plan, log: Log) {
    forall p :: 0 <= p < |log| && log[p].Sent? ==> Allowed(g, comps, plan, log[p].phase, log[p].x)
  }

  /** Before position p the graceful shutdown of x had timed out. */
  ghost predicate TimedOutBefore(top: Topology, log: Log, p: nat, x: Xname)
    requires p <= |log|
  {
    exists q :: 0 <= q < p && log[q] == GaveUp(PhaseOf(GracefulShutdown, top.typeOf(x)), x, TimedOut)
  }

  predicate IsForce(e: Event) {
    e.Sent? && e.phase < PHASES && PhaseAt(e.phase).action == ForceOff
  }

  /** A force-off that planning did not ask for was sent only after the component's shutdown had timed out. */
  ghost predicate SentGently(g: Givens, log: Log) {
    forall p :: 0 <= p < |log| && IsForce(log[p]) ==> log[p].x in g.forced || TimedOutBefore(g.top, log, p, log[p].x)
  }

  /** And it is in the plan only after that. */
  ghost predicate Gentle(g: Givens, plan: Plan, log: Log) {
    && (forall x :: Listed(g.top, plan, x, ForceOff) ==> x in g.forced || TimedOutBefore(g.top, log, |log|, x))
    && SentGently(g, log)
  }

  function ModuleOf(top: Topology, n: Xname): Xname {
    top.parentOf(top.parentOf(n))
  }

  /**
   * The modules of nodes that were cut off have failed if they were requested, and those cut off in time were sent
   * no off.
   */
  ghost predicate ModulesSpared(top: Topology, comps: Components, log: Log, cut: set<Xname>, early: set<Xname>) {
    && (forall n :: n in cut && ModuleOf(top, n) in comps ==> !Alive(comps[ModuleOf(top, n)]))
    && (forall n :: n in early ==> n in cut && SentNoOff(log, ModuleOf(top, n)))
  }

  ghost predicate Accounted(g: Givens, comps: Components, plan: Plan, log: Log, cut: set<Xname>, early: set<Xname>,
                            causes: Causes)
  {
    && Explained(g, comps, plan, log, cut, causes)
    && ShutdownsCut(g.top, comps, cut, early, causes)
    && Permitted(g, comps, plan, log)
    && Gentle(g, plan, log)
    && ModulesSpared(g.top, comps, log, cut, early)
  }

  /** Same hardware data, and a failed task stays failed. */
  ghost predicate Follows(c: Components, d: Components) {
    && c.Keys == d.Keys
    && forall x :: x in c ==>
         && d[x].actions == c[x].actions && d[x].outletKnown == c[x].outletKnown && d[x].supplies == c[x].supplies
         && (!Alive(c[x]) ==> !Alive(d[x]))
  }

  /** The plan only grows. */
  ghost predicate Keeps(top: Topology, plan: Plan, plan': Plan) {
    forall y, a :: Listed(top, plan, y, a) ==> Listed(top, plan', y, a)
  }

  /** Commands that join the log are allowed, and go to live components. */
  ghost predicate Extends(g: Givens, comps: Components, plan: Plan, log: Log, log': Log) {
    && log <= log'
    && forall p :: |log| <= p < |log'| && log'[p].Sent? ==>
         Allowed(g, comps, plan, log'[p].phase, log'[p].x) && Alive(comps[log'[p].x])
  }

  /** Nothing, or one more event, joins the log. */
  lemma Noted(g: Givens, comps: Components, plan: Plan, log: Log, e: Event)
    requires e.Sent? ==> Allowed(g, comps, plan, e.phase, e.x) && Alive(comps[e.x])
    ensures Extends(g, comps, plan, log, log) && Extends(g, comps, plan, log, log + [e])
  {
  }

  /** Causes stay valid while the run goes on. */
  lemma StillJustified(g: Givens, c: Components, d: Components, plan: Plan, plan': Plan, log: Log, log': Log,
                       cut: set<Xname>, cut': set<Xname>, x: Xname, why: Cause)
    requires Follows(c, d) && x in c && Justified(g, c, plan, log, cut, x, why)
    requires Keeps(g.top, plan, plan') && log <= log' && cut <= cut'
    ensures Justified(g, d, plan', log', cut', x, why)
  {
  }

  /** Commands that were allowed stay so while the run goes on. */
  lemma PermittedStep(g: Givens, c: Components, d: Components, plan: Plan, plan': Plan, log: Log, log': Log)
    requires Permitted(g, c, plan, log) && Follows(c, d) && Keeps(g.top, plan, plan')
    requires Extends(g, d, plan', log, log')
    ensures Permitted(g, d, plan', log')
  {
    hide Listed, PhaseAt, HasPayload;
    forall p | 0 <= p < |log'| && log'[p].Sent? ensures Allowed(g, d, plan', log'[p].phase, log'[p].x) {
      if p < |log| {
        assert Allowed(g, c, plan, log[p].phase, log[p].x);
        StillAllowed(g, c, d, plan, plan', log[p].phase, log[p].x);
      }
    }
  }

  lemma StillAllowed(g: Givens, c: Components, d: Components, plan: Plan, plan': Plan, k: nat, x: Xname)
    requires Allowed(g, c, plan, k, x) && Follows(c, d) && Keeps(g.top, plan, plan')
    ensures Allowed(g, d, plan', k, x)
  {
    hide Listed, PhaseAt;
  }

  /** The plan gains force-offs only of shutdowns that have timed out, and then no command goes out in the same step. */
  ghost predicate GrowsGently(top: Topology, plan: Plan, plan': Plan, log: Log, log': Log) {
    || plan' == plan
    || ((forall x :: Listed(top, plan', x, ForceOff) && !Listed(top, plan, x, ForceOff) ==>
           TimedOutBefore(top, log', |log'|, x))
        && forall p :: |log| <= p < |log'| ==> !log'[p].Sent?)
  }

  lemma TimedOutStill(top: Topology, log: Log, log': Log, p: nat, p': nat, x: Xname)
    requires log <= log' && p <= |log| && p <= p' <= |log'| && TimedOutBefore(top, log, p, x)
    ensures TimedOutBefore(top, log', p', x)
  {
    var q :| 0 <= q < p && log[q] == GaveUp(PhaseOf(GracefulShutdown, top.typeOf(x)), x, TimedOut);
    assert log'[q] == log[q];
  }

  lemma GentleStep(g: Givens, comps: Components, plan: Plan, plan': Plan, log: Log, log': Log)
    requires Gentle(g, plan, log) && Extends(g, comps, plan', log, log') && GrowsGently(g.top, plan, plan', log, log')
    ensures Gentle(g, plan', log')
  {
    hide Listed, PhaseAt, PhaseOf;
    forall x | Listed(g.top, plan', x, ForceOff) ensures x in g.forced || TimedOutBefore(g.top, log', |log'|, x) {
      if Listed(g.top, plan, x, ForceOff) && x !in g.forced {
        TimedOutStill(g.top, log, log', |log|, |log'|, x);
      }
    }
    forall p | 0 <= p < |log'| && IsForce(log'[p])
      ensures log'[p].x in g.forced || TimedOutBefore(g.top, log', p, log'[p].x)
    {
      var x := log'[p].x;
      if p < |log| {
        assert log'[p] == log[p];
        if x !in g.forced { TimedOutStill(g.top, log, log', p, p, x); }
      } else {
        assert Allowed(g, comps, plan', log'[p].phase, x);
        if x !in g.forced { TimedOutStill(g.top, log, log', |log|, p, x); }
      }
    }
  }

  lemma ModulesStep(g: Givens, c: Components, d: Components, plan: Plan, log: Log, log': Log, cut: set<Xname>,
                    early: set<Xname>)
    requires ModulesSpared(g.top, c, log, cut, early) && Follows(c, d) && Extends(g, d, plan, log, log')
    ensures ModulesSpared(g.top, d, log', cut, early)
  {
    hide PhaseAt, IsOff, Listed, HasPayload, PhaseOf;
    forall n | n in early ensures SentNoOff(log', ModuleOf(g.top, n)) {
      forall p | |log| <= p < |log'| && log'[p].Sent? ensures log'[p].x != ModuleOf(g.top, n) {
        assert Allowed(g, d, plan, log'[p].phase, log'[p].x) && Alive(d[log'[p].x]);
      }
    }
  }

  /** A step that fails no task keeps everything accounted for. */
  lemma AccountedStep(g: Givens, c: Components, d: Components, plan: Plan, plan': Plan, log: Log, log': Log,
                      cut: set<Xname>, early: set<Xname>, causes: Causes)
    requires Accounted(g, c, plan, log, cut, early, causes) && Follows(c, d)
    requires forall x :: x in c && Alive(c[x]) ==> Alive(d[x])
    requires Keeps(g.top, plan, plan') && Extends(g, d, plan', log, log') && GrowsGently(g.top, plan, plan', log, log')
    ensures Accounted(g, d, plan', log', cut, early, causes)
  {
    hide Listed, Justified, Permitted, Keeps, Extends, InShutdown, BeforeModules, Gentle, ModulesSpared, GrowsGently;
    PermittedStep(g, c, d, plan, plan', log, log');
    GentleStep(g, d, plan, plan', log, log');
    ModulesStep(g, c, d, plan', log, log', cut, early);
    assert log <= log' by { ExtendsIsPrefix(g, d, plan', log, log'); }
    forall x | x in d && !Alive(d[x]) ensures x in causes && Justified(g, d, plan', log', cut, x, causes[x]) {
      StillJustified(g, c, d, plan, plan', log, log', cut, cut, x, causes[x]);
    }
  }

  lemma ExtendsIsPrefix(g: Givens, comps: Components, plan: Plan, log: Log, log': Log)
    requires Extends(g, comps, plan, log, log')
    ensures log <= log'
  {
  }

  /** An update of one task that leaves it as alive as it was. */
  lemma AccountedUpdate(g: Givens, c: Components, plan: Plan, log: Log, log': Log, cut: set<Xname>, early: set<Xname>,
                        causes: Causes, x: Xname, y: Component)
    requires Accounted(g, c, plan, log, cut, early, causes) && x in c && Extends(g, c[x := y], plan, log, log')
    requires y.actions == c[x].actions && y.outletKnown == c[x].outletKnown && y.supplies == c[x].supplies
    requires Alive(c[x]) <==> Alive(y)
    ensures Accounted(g, c[x := y], plan, log', cut, early, causes)
  {
    hide Listed, Accounted, Extends;
    assert c[x := y].Keys == c.Keys;
    AccountedStep(g, c, c[x := y], plan, plan, log, log', cut, early, causes);
  }

  /** What failing action a on x adds to the components cut off. */
  function CutBy(top: Topology, a: Action, x: Xname): set<Xname> {
    if a == GracefulShutdown && top.typeOf(x) == Node then {x} else {}
  }

  /** No module has been commanded yet. */
  predicate NoModuleSent(log: Log) {
    forall p :: 0 <= p < |log| && log[p].Sent? ==> log[p].phase < 2
  }

  /** Failing one task for a valid cause that is not the shutdown of a node. */
  lemma AccountedFail(g: Givens, c: Components, plan: Plan, log: Log, cut: set<Xname>, early: set<Xname>,
                      causes: Causes, x: Xname, why: Cause)
    requires Accounted(g, c, plan, log, cut, early, causes) && x in c && Justified(g, c, plan, log, cut, x, why)
    requires InShutdown(why) ==> g.top.typeOf(x) != Node
    ensures Accounted(g, c[x := Fail(c[x])], plan, log, cut, early, causes[x := why])
  {
    hide Listed, Justified, Permitted, InShutdown, BeforeModules, Gentle, ModulesSpared;
    var d := c[x := Fail(c[x])];
    assert d.Keys == c.Keys;
    Noted(g, d, plan, log, Confirmed(0, x));
    PermittedStep(g, c, d, plan, plan, log, log);
    ModulesStep(g, c, d, plan, log, log, cut, early);
    forall y | y in d && !Alive(d[y])
      ensures y in causes[x := why] && Justified(g, d, plan, log, cut, y, causes[x := why][y])
    {
      StillJustified(g, c, d, plan, plan, log, log, cut, cut, y, if y == x then why else causes[y]);
    }
  }

  /** Causes after the components a node depends on have been failed on its account. */
  function BlameNode(causes: Causes, parents: set<Xname>, n: Xname): Causes {
    map y | y in causes.Keys + parents :: if y in parents then DependencyOf(n) else causes[y]
  }

  /**
   * Failing a node in its shutdown and what serves it, its module among that: the node is cut off,
   * in time for its module when none has been commanded.
   */
  lemma AccountedStrike(g: Givens, c: Components, d: Components, plan: Plan, log: Log, cut: set<Xname>,
                        early: set<Xname>, causes: Causes, n: Xname, why: Cause, parents: set<Xname>)
    requires n in c && Accounted(g, c, plan, log, cut, early, causes) && Justified(g, c, plan, log, cut, n, why)
    requires g.top.Valid() && g.top.typeOf(n) == Node && n !in parents
    requires BeforeModules(why) ==> NoModuleSent(log)
    requires d.Keys == c.Keys && forall y :: y in d ==> d[y] == if y == n || y in parents then Fail(c[y]) else c[y]
    requires ModuleOf(g.top, n) in parents && forall p :: p in parents ==> Serves(g.top, c[n], n, p)
    ensures Accounted(g, d, plan, log, cut + {n}, early + (if NoModuleSent(log) then {n} else {}),
                      BlameNode(causes[n := why], parents, n))
  {
    hide Explained, ShutdownsCut, Listed, Justified, Serves, Permitted, Gentle, ModulesSpared, NoModuleSent, BlameNode;
    Noted(g, d, plan, log, Confirmed(0, n));
    PermittedStep(g, c, d, plan, plan, log, log);
    StrikeSpares(g, c, d, plan, log, cut, early, n);
    StrikeExplained(g, c, d, plan, log, cut, causes, n, why, parents);
    StrikeCuts(g.top, c, d, log, cut, early, causes, n, why, parents);
  }

  lemma StrikeExplained(g: Givens, c: Components, d: Components, plan: Plan, log: Log, cut: set<Xname>,
                        causes: Causes, n: Xname, why: Cause, parents: set<Xname>)
    requires n in c && Explained(g, c, plan, log, cut, causes) && Justified(g, c, plan, log, cut, n, why)
    requires g.top.typeOf(n) == Node && n !in parents
    requires d.Keys == c.Keys && forall y :: y in d ==> d[y] == if y == n || y in parents then Fail(c[y]) else c[y]
    requires forall p :: p in parents ==> Serves(g.top, c[n], n, p)
    ensures Explained(g, d, plan, log, cut + {n}, BlameNode(causes[n := why], parents, n))
  {
    hide Listed, Justified, Serves;
    var causes' := BlameNode(causes[n := why], parents, n);
    forall y | y in d && !Alive(d[y]) ensures y in causes' && Justified(g, d, plan, log, cut + {n}, y, causes'[y]) {
      if y in parents {
        ServesIsCause(g, c, d, plan, log, cut + {n}, n, y);
      } else {
        StillJustified(g, c, d, plan, plan, log, log, cut, cut + {n}, y, if y == n then why else causes[y]);
      }
    }
  }

  lemma StrikeCuts(top: Topology, c: Components, d: Components, log: Log, cut: set<Xname>, early: set<Xname>,
                   causes: Causes, n: Xname, why: Cause, parents: set<Xname>)
    requires ShutdownsCut(top, c, cut, early, causes) && (BeforeModules(why) ==> NoModuleSent(log))
    requires d.Keys == c.Keys && forall y :: y in d ==> d[y] == if y == n || y in parents then Fail(c[y]) else c[y]
    ensures ShutdownsCut(top, d, cut + {n}, early + (if NoModuleSent(log) then {n} else {}),
                         BlameNode(causes[n := why], parents, n))
  {
    hide InShutdown, BeforeModules, NoModuleSent;
    NotInShutdown(n);
  }

  /** A module that fails with its node before modules are commanded has been sent no off. */
  lemma StrikeSpares(g: Givens, c: Components, d: Components, plan: Plan, log: Log, cut: set<Xname>,
                     early: set<Xname>, n: Xname)
    requires ModulesSpared(g.top, c, log, cut, early) && Permitted(g, c, plan, log) && Follows(c, d)
    requires g.top.Valid() && g.top.typeOf(n) == Node
    requires ModuleOf(g.top, n) in d ==> !Alive(d[ModuleOf(g.top, n)])
    ensures ModulesSpared(g.top, d, log, cut + {n}, early + if NoModuleSent(log) then {n} else {})
  {
    hide Listed, HasPayload;
    if NoModuleSent(log) {
      forall p | 0 <= p < |log| && log[p].Sent? ensures log[p].x != ModuleOf(g.top, n) {
        assert Allowed(g, c, plan, log[p].phase, log[p].x);
      }
    }
  }

  lemma NotInShutdown(n: Xname)
    ensures !InShutdown(DependencyOf(n))
  {
  }

  lemma ServesIsCause(g: Givens, c: Components, d: Components, plan: Plan, log: Log, cut: set<Xname>, n: Xname,
                      y: Xname)
    requires n in c && n in d && y in d && n in cut && g.top.typeOf(n) == Node && !Alive(d[n])
    requires Serves(g.top, c[n], n, y) && d[n].supplies == c[n].supplies
    ensures Justified(g, d, plan, log, cut, y, DependencyOf(n))
  {
  }

  /** When planning is done its failures are explained by it, and so are its force-offs; nothing has been sent. */
  lemma DoomedAccounted(g: Givens, comps: Components, plan: Plan)
    requires g.doomed == set x | x in comps && !Alive(comps[x])
    requires forall x :: Listed(g.top, plan, x, ForceOff) ==> x in g.forced
    ensures Accounted(g, comps, plan, [], {}, {}, map x | x in g.doomed :: AtPlanning)
  {
  }

  /** What fails together with a node serves it, its module among that, and is no node itself. */
  lemma DependentsServe(top: Topology, comps: Components, n: Xname)
    requires top.Valid() && SuppliesOK(top, comps) && n in comps && top.typeOf(n) == Node
    ensures var failed := Dependents(top, comps.Keys, n, comps[n].supplies);
            && ModuleOf(top, n) in failed
            && forall p :: p in failed ==> Serves(top, comps[n], n, p) && top.typeOf(p) != Node
  {
    forall p | p in Dependents(top, comps.Keys, n, comps[n].supplies) ensures top.typeOf(p) != Node {
      DependentsAreNoNodes(top, comps, n, p);
    }
  }

  /** What a node that would not shut down is left with: a supply on, if it had one on, and its module. */
  ghost predicate Protected(top: Topology, comps: Components, log: Log, n: Xname)
    requires n in comps
  {
    && KeepsPower(comps, log, n)
    && SentNoOff(log, ModuleOf(top, n)) && (ModuleOf(top, n) in comps ==> !Alive(comps[ModuleOf(top, n)]))
  }

  /** Nodes cut off in time are protected. */
  lemma EarlyIsProtected(top: Topology, comps: Components, log: Log, cut: set<Xname>, early: set<Xname>, n: Xname)
    requires ModulesSpared(top, comps, log, cut, early) && PowerKept(comps, log, cut) && n in early
    ensures n in comps && Protected(top, comps, log, n)
  {
    hide KeepsPower, SentNoOff;
  }

  /**
   * A failed node has a cause. If that arose while the node was to be shut down, the node keeps a
   * supply on, if it had one, and its module has failed if it was requested; if it arose before
   * modules were commanded, the module has been sent no off.
   */
  lemma FailedNodeKeepsPower(g: Givens, comps: Components, plan: Plan, log: Log, cut: set<Xname>, early: set<Xname>,
                             causes: Causes, n: Xname)
    requires Accounted(g, comps, plan, log, cut, early, causes) && PowerKept(comps, log, cut)
    requires n in comps && g.top.typeOf(n) == Node && !Alive(comps[n])
    ensures n in causes && Justified(g, comps, plan, log, cut, n, causes[n])
    ensures InShutdown(causes[n]) ==>
              KeepsPower(comps, log, n) && (ModuleOf(g.top, n) in comps ==> !Alive(comps[ModuleOf(g.top, n)]))
    ensures InShutdown(causes[n]) && BeforeModules(causes[n]) ==> Protected(g.top, comps, log, n)
  {
    hide Justified, Permitted, InShutdown, BeforeModules, KeepsPower, Gentle, SentNoOff;
  }
}
