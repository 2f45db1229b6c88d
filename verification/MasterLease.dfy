/**
 * Mastership of the power status monitor: one stored timestamp, taken over under a distributed
 * lock when it has been silent for 45 seconds and refreshed by its holder with a test-and-set
 * at every tick of a 15 second timer.
 */
module MasterLease {
  import opened Wrappers

  /** Seconds between keep-alives, and the silence after which a master counts as dead. */
  const INTERVAL := 15
  const SILENCE := 3 * INTERVAL

  /**
   * A master's term: the timestamp it was elected with, how often it has refreshed it since, and
   * when its timer ticks next.
   */
  datatype Term = Term(elected: int, refreshes: nat, due: int)

  /**
   * Where an instance stands: outside, in the critical section before and after it read the
   * timestamp, or master with the timestamp it last stored; a master whose timer has ticked has
   * read the clock and is about to test-and-set.
   */
  datatype Role =
    | Idle
    | Entering
    | Entered(now: int)
    | Looked(now: int, last: Option<int>)
    | Master(held: int, term: Term)
    | Refreshing(held: int, term: Term, now: int)

  datatype State = State(
    clock: int,
    stored: Option<int>,
    lock: Option<nat>,
    roles: map<nat, Role>)

  /**
   * Decide starts the timer after some delay. Fire is a tick that was handled, after which the
   * timer may skip ticks nobody waited for. A test-and-set may fail without an answer.
   */
  datatype Step =
    | Tick(seconds: nat)
    | Lock(i: nat)
    | ReadClock(i: nat)
    | ReadStored(i: nat)
    | Decide(i: nat, delay: nat)
    | Fire(i: nat, skipped: nat)
    | Refresh(i: nat, reached: bool)
    | Stop(i: nat)
    | Join(i: nat)

  predicate RoleIs(s: State, i: nat, r: Role) {
    i in s.roles && s.roles[i] == r
  }

  predicate IsMaster(r: Role) {
    r.Master? || r.Refreshing?
  }

  ghost predicate Enabled(s: State, step: Step) {
    match step
    case Tick(_) => true
    case Join(i) => i !in s.roles
    case Lock(i) => RoleIs(s, i, Idle) && s.lock == None
    case ReadClock(i) => RoleIs(s, i, Entering)
    case ReadStored(i) => i in s.roles && s.roles[i].Entered?
    case Decide(i, _) => i in s.roles && s.roles[i].Looked?
    case Fire(i, _) => i in s.roles && s.roles[i].Master? && s.roles[i].term.due <= s.clock
    case Refresh(i, _) => i in s.roles && s.roles[i].Refreshing?
    case Stop(i) => i in s.roles && s.roles[i].Master?
  }

  function NewTerm(now: int, clock: int, delay: nat): Term {
    Term(now, 0, clock + delay + INTERVAL)
  }

  function Apply(s: State, step: Step): State
    requires Enabled(s, step)
  {
    match step
    case Tick(seconds) => s.(clock := s.clock + seconds)
    case Join(i) => s.(roles := s.roles[i := Idle])
    case Lock(i) => s.(lock := Some(i), roles := s.roles[i := Entering])
    case ReadClock(i) => s.(roles := s.roles[i := Entered(s.clock)])
    case ReadStored(i) => s.(roles := s.roles[i := Looked(s.roles[i].now, s.stored)])
    case Decide(i, delay) =>
      var now, last := s.roles[i].now, s.roles[i].last;
      var out := s.(lock := None);
      var elected := out.(stored := Some(now), roles := s.roles[i := Master(now, NewTerm(now, s.clock, delay))]);
      if last.None? then elected
      else if last.value + SILENCE > now then out.(roles := s.roles[i := Idle])
      else if s.stored == last then elected
      else out.(roles := s.roles[i := Idle])
    case Fire(i, skipped) =>
      var r := s.roles[i];
      var term := r.term.(due := r.term.due + INTERVAL * (1 + skipped));
      s.(roles := s.roles[i := Refreshing(r.held, term, s.clock)])
    case Refresh(i, reached) =>
      var r := s.roles[i];
      if !reached then s.(roles := s.roles[i := Master(r.held, r.term)])
      else if s.stored == Some(r.held) then
        s.(stored := Some(r.now),
           roles := s.roles[i := Master(r.now, r.term.(refreshes := r.term.refreshes + 1))])
      else s.(roles := s.roles[i := Idle])
    case Stop(i) => s.(roles := s.roles[i := Idle])
  }

  ghost predicate Initial(s: State) {
    s.stored == None && s.lock == None && forall i :: i in s.roles ==> s.roles[i] == Idle
  }

  ghost predicate Run(states: seq<State>, steps: seq<Step>) {
    && |states| == |steps| + 1
    && Initial(states[0])
    && forall k :: 0 <= k < |steps| ==> Enabled(states[k], steps[k]) && states[k + 1] == Apply(states[k], steps[k])
  }

  predicate InSection(r: Role) {
    r.Entering? || r.Entered? || r.Looked?
  }

  /** Instance i is master and remembers the stored timestamp. */
  predicate Holds(s: State, i: nat) {
    i in s.roles && IsMaster(s.roles[i]) && s.stored == Some(s.roles[i].held)
  }

  /** The timer runs at its rate: n refreshes take at least n intervals, and so does the wait for the next. */
  predicate OnTime(s: State, r: Role) {
    match r
    case Master(held, term) =>
      && term.elected + INTERVAL * term.refreshes <= held <= s.clock
      && term.elected + INTERVAL * (term.refreshes + 1) <= term.due
    case Refreshing(held, term, now) =>
      && term.elected + INTERVAL * term.refreshes <= held <= now <= s.clock
      && term.elected + INTERVAL * (term.refreshes + 1) <= now
      && term.elected + INTERVAL * (term.refreshes + 2) <= term.due
    case _ => true
  }

  /** Whoever is in the critical section has the lock, and knows nothing that the store has not held. */
  ghost predicate SectionOK(s: State) {
    && (forall i :: i in s.roles && InSection(s.roles[i]) ==> s.lock == Some(i))
    && (s.stored.Some? ==> s.stored.value <= s.clock)
    && (forall i :: i in s.roles && s.roles[i].Entered? ==> s.roles[i].now <= s.clock)
    && (forall i :: i in s.roles && s.roles[i].Looked? ==> s.roles[i].now <= s.clock)
    && (forall i :: i in s.roles && s.roles[i].Looked? && s.roles[i].last.Some? ==>
          s.stored.Some? && s.roles[i].last.value <= s.stored.value)
    && (forall i :: i in s.roles && s.roles[i].Looked? && s.roles[i].last.None? ==> s.stored.None?)
  }

  ghost predicate Inv(s: State) {
    && SectionOK(s)
    && (forall i :: i in s.roles && IsMaster(s.roles[i]) ==> s.stored.Some? && s.roles[i].held <= s.stored.value)
    && (forall i :: i in s.roles ==> OnTime(s, s.roles[i]))
    && (forall i, j :: Holds(s, i) && Holds(s, j) ==> i == j)
  }

  /** The instance that takes a step. */
  predicate Acts(step: Step, i: nat) {
    !step.Tick? && step.i == i
  }

  /** A step makes no instance but the acting one a holder. */
  lemma BystanderGainsNothing(s: State, step: Step, j: nat)
    requires Inv(s) && Enabled(s, step) && !Acts(step, j)
    requires Holds(Apply(s, step), j)
    ensures Holds(s, j)
  {
  }

  /** When another instance holds the timestamp before and after a step, the acting one does not come to hold it. */
  lemma HolderExcludesActor(s: State, step: Step, i: nat, j: nat)
    requires Inv(s) && Enabled(s, step) && Acts(step, i) && i != j
    requires Holds(s, j) && Holds(Apply(s, step), j)
    ensures !Holds(Apply(s, step), i)
  {
    assert !Holds(s, i);
    assert s.roles[j] == Apply(s, step).roles[j];
  }

  lemma OneHolderKept(s: State, step: Step, i: nat, j: nat)
    requires Inv(s) && Enabled(s, step)
    requires Holds(Apply(s, step), i) && Holds(Apply(s, step), j)
    ensures i == j
  {
    if i != j {
      if Acts(step, i) {
        BystanderGainsNothing(s, step, j);
        HolderExcludesActor(s, step, i, j);
      } else if Acts(step, j) {
        BystanderGainsNothing(s, step, i);
        HolderExcludesActor(s, step, j, i);
      } else {
        BystanderGainsNothing(s, step, i);
        BystanderGainsNothing(s, step, j);
      }
    }
  }

  lemma OnTimeKept(s: State, step: Step, i: nat)
    requires Enabled(s, step) && i in Apply(s, step).roles
    requires i in s.roles ==> OnTime(s, s.roles[i]) && (s.roles[i].Looked? ==> s.roles[i].now <= s.clock)
    ensures OnTime(Apply(s, step), Apply(s, step).roles[i])
  {
  }

  lemma SectionKept(s: State, step: Step)
    requires SectionOK(s) && Enabled(s, step)
    requires step.Refresh? ==> s.roles[step.i].held <= s.roles[step.i].now <= s.clock
    ensures SectionOK(Apply(s, step))
    ensures s.stored.Some? ==> Apply(s, step).stored.Some? && s.stored.value <= Apply(s, step).stored.value
  {
  }

  lemma StepKeepsInv(s: State, step: Step)
    requires Inv(s) && Enabled(s, step)
    ensures Inv(Apply(s, step))
    ensures s.stored.Some? ==> Apply(s, step).stored.Some? && s.stored.value <= Apply(s, step).stored.value
  {
    hide OnTime;
    var s' := Apply(s, step);
    forall i, j | Holds(s', i) && Holds(s', j) ensures i == j {
      OneHolderKept(s, step, i, j);
    }
    forall i | i in s'.roles ensures OnTime(s', s'.roles[i]) {
      OnTimeKept(s, step, i);
    }
    if step.Refresh? {
      NowIsLater(s, step.i);
    }
    SectionKept(s, step);
  }

  lemma NowIsLater(s: State, i: nat)
    requires Inv(s) && i in s.roles && s.roles[i].Refreshing?
    ensures s.roles[i].held <= s.roles[i].now <= s.clock
  {
    assert OnTime(s, s.roles[i]);
  }

  lemma {:induction false} RunKeepsInv(states: seq<State>, steps: seq<Step>, k: nat)
    requires Run(states, steps) && k < |states|
    ensures Inv(states[k])
  {
    if k > 0 {
      RunKeepsInv(states, steps, k - 1);
      StepKeepsInv(states[k - 1], steps[k - 1]);
    }
  }

  /** The stored timestamp never goes back, over any run of any number of instances. */
  lemma {:induction false} StoredNeverFalls(states: seq<State>, steps: seq<Step>, k: nat, m: nat)
    requires Run(states, steps) && k <= m < |states|
    requires states[k].stored.Some?
    ensures states[m].stored.Some? && states[k].stored.value <= states[m].stored.value
    decreases m
  {
    if k < m {
      StoredNeverFalls(states, steps, k, m - 1);
      RunKeepsInv(states, steps, m - 1);
      StepKeepsInv(states[m - 1], steps[m - 1]);
    }
  }

  /** Step k makes instance i master. */
  predicate Elects(states: seq<State>, steps: seq<Step>, k: nat, i: nat)
    requires k < |steps| && |steps| < |states|
  {
    && steps[k].Decide? && steps[k].i == i
    && i in states[k + 1].roles && states[k + 1].roles[i].Master?
  }

  /**
   * Mastership changes hands only after 45 seconds of silence, and the new timestamp exceeds the old one by as
   * much.
   */
  lemma TakeoverNeedsSilence(states: seq<State>, steps: seq<Step>, k: nat, i: nat)
    requires Run(states, steps) && k < |steps| && Elects(states, steps, k, i)
    ensures states[k].stored.Some? ==>
              && states[k].stored.value + 45 <= states[k + 1].stored.value
              && states[k].stored.value + 45 <= states[k].clock
    ensures Holds(states[k + 1], i)
  {
    RunKeepsInv(states, steps, k);
    assert Enabled(states[k], steps[k]);
  }

  /** At most one instance remembers the stored timestamp. */
  lemma OneHolder(states: seq<State>, steps: seq<Step>, k: nat, i: nat, j: nat)
    requires Run(states, steps) && k < |states|
    requires Holds(states[k], i) && Holds(states[k], j)
    ensures i == j
  {
    RunKeepsInv(states, steps, k);
  }

  /** A master that has been overtaken: the stored timestamp is beyond the one it remembers. */
  predicate Displaced(s: State, i: nat) {
    i in s.roles && IsMaster(s.roles[i]) && s.stored.Some? && s.roles[i].held < s.stored.value
  }

  /** A master is the holder or displaced, nothing in between. */
  lemma HolderOrDisplaced(states: seq<State>, steps: seq<Step>, k: nat, i: nat)
    requires Run(states, steps) && k < |states|
    requires i in states[k].roles && IsMaster(states[k].roles[i])
    ensures Holds(states[k], i) <==> !Displaced(states[k], i)
  {
    RunKeepsInv(states, steps, k);
  }

  /** A step by which instance i learns from the store, or leaves on its own account. */
  predicate Concludes(step: Step, i: nat) {
    (step.Refresh? && step.i == i && step.reached) || (step.Stop? && step.i == i)
  }

  lemma DisplacedStep(s: State, step: Step, i: nat)
    requires Inv(s) && Enabled(s, step) && Displaced(s, i) && !Concludes(step, i)
    ensures Displaced(Apply(s, step), i)
  {
    StepKeepsInv(s, step);
  }

  /**
   * Until its test-and-set reaches the store a displaced master stays displaced, through any number
   * of ticks and failed attempts; the one that does reach it changes no timestamp and makes it step down.
   */
  lemma {:induction false} DisplacedStepsDown(states: seq<State>, steps: seq<Step>, k: nat, m: nat, i: nat)
    requires Run(states, steps) && k <= m < |steps|
    requires Displaced(states[k], i)
    requires forall n :: k <= n < m ==> !Concludes(steps[n], i)
    ensures Displaced(states[m], i)
    ensures steps[m].Refresh? && steps[m].i == i && steps[m].reached ==>
              states[m + 1].stored == states[m].stored && states[m + 1].roles[i] == Idle
    decreases m
  {
    hide Inv;
    if k < m {
      DisplacedStepsDown(states, steps, k, m - 1, i);
      RunKeepsInv(states, steps, m - 1);
      DisplacedStep(states[m - 1], steps[m - 1], i);
    }
    assert Enabled(states[m], steps[m]);
  }

  /** The stored timestamp is less than three intervals old. */
  predicate Fresh(s: State) {
    s.stored.Some? && s.clock < s.stored.value + 45
  }

  lemma FreshStep(s: State, step: Step, i: nat)
    requires Inv(s) && Enabled(s, step) && Holds(s, i) && Fresh(s) && step != Stop(i)
    ensures Holds(Apply(s, step), i)
  {
    if step.Refresh? && step.i != i {
      assert !Holds(s, step.i);
    }
  }

  /** A master whose refreshes reach the store before its timestamp is 45 seconds old is never displaced. */
  lemma {:induction false} FreshMasterStays(states: seq<State>, steps: seq<Step>, k: nat, m: nat, i: nat)
    requires Run(states, steps) && k <= m < |states| && Holds(states[k], i)
    requires forall n :: k <= n < m ==> Fresh(states[n]) && steps[n] != Stop(i)
    ensures Holds(states[m], i)
    decreases m
  {
    hide Inv, Holds;
    if k < m {
      FreshMasterStays(states, steps, k, m - 1, i);
      RunKeepsInv(states, steps, m - 1);
      assert Enabled(states[m - 1], steps[m - 1]);
      FreshStep(states[m - 1], steps[m - 1], i);
    }
  }

  /**
   * After 45 seconds of silence, or before there was any master, an idle instance that finds the lock free is
   * elected.
   */
  lemma SilenceElects(s: State, i: nat)
    requires RoleIs(s, i, Idle) && s.lock == None && (s.stored.Some? ==> s.stored.value + 45 <= s.clock)
    ensures var s1 := Apply(s, Lock(i));
            && Enabled(s1, ReadClock(i)) && Enabled(Apply(s1, ReadClock(i)), ReadStored(i))
            && var s3 := Apply(Apply(s1, ReadClock(i)), ReadStored(i));
            && Enabled(s3, Decide(i, 0))
            && Holds(Apply(s3, Decide(i, 0)), i) && Apply(s3, Decide(i, 0)).stored == Some(s.clock)
            && Apply(s3, Decide(i, 0)).lock == None
  {
  }

  // The pace of the timestamp --------------------------------------------------------------------

  /**
   * The stored timestamp moves with the timer: a holder that was elected with timestamp e and has
   * refreshed n times has stored one no earlier than e plus n intervals.
   */
  lemma TimestampKeepsPace(states: seq<State>, steps: seq<Step>, k: nat, i: nat)
    requires Run(states, steps) && k < |states| && Holds(states[k], i)
    ensures var term := states[k].roles[i].term;
            term.elected + INTERVAL * term.refreshes <= states[k].stored.value
  {
    RunKeepsInv(states, steps, k);
    assert OnTime(states[k], states[k].roles[i]);
  }

  /** Step k writes the timestamp. */
  predicate Writes(states: seq<State>, steps: seq<Step>, k: nat)
    requires k < |steps| && |steps| < |states|
  {
    || (steps[k].Decide? && Elects(states, steps, k, steps[k].i))
    || (steps[k].Refresh? && steps[k].reached && Holds(states[k], steps[k].i))
  }

  /** Every master so far has read the clock before its next tick was due. */
  ghost predicate Prompt(states: seq<State>, steps: seq<Step>, n: nat)
    requires n <= |steps| < |states|
  {
    forall k :: 0 <= k < n && steps[k].Fire? && steps[k].i in states[k].roles && states[k].roles[steps[k].i].Master? ==>
                  states[k].clock < states[k].roles[steps[k].i].term.due + INTERVAL
  }

  /** A master's next reading of the clock will be, or is, later than the timestamp it holds. */
  predicate Advances(r: Role) {
    match r
    case Master(held, term) => held < term.due
    case Refreshing(held, term, now) => held < now < term.due
    case _ => true
  }

  lemma AdvancesStep(s: State, step: Step)
    requires Inv(s) && Enabled(s, step) && forall i :: i in s.roles ==> Advances(s.roles[i])
    requires step.Fire? ==> s.clock < s.roles[step.i].term.due + INTERVAL
    ensures forall i :: i in Apply(s, step).roles ==> Advances(Apply(s, step).roles[i])
  {
  }

  lemma {:induction false} AdvancesRun(states: seq<State>, steps: seq<Step>, n: nat)
    requires Run(states, steps) && n <= |steps| && Prompt(states, steps, n)
    ensures forall i :: i in states[n].roles ==> Advances(states[n].roles[i])
  {
    if n > 0 {
      AdvancesRun(states, steps, n - 1);
      RunKeepsInv(states, steps, n - 1);
      assert Enabled(states[n - 1], steps[n - 1]);
      AdvancesStep(states[n - 1], steps[n - 1]);
    }
  }

  /**
   * While masters read the clock within an interval of their ticks, every write of the timestamp makes it strictly
   * later.
   */
  lemma EveryWriteIsLater(states: seq<State>, steps: seq<Step>, k: nat)
    requires Run(states, steps) && k < |steps| && Prompt(states, steps, k) && Writes(states, steps, k)
    ensures states[k + 1].stored.Some?
    ensures states[k].stored.Some? ==> states[k].stored.value < states[k + 1].stored.value
  {
    RunKeepsInv(states, steps, k);
    AdvancesRun(states, steps, k);
    assert Enabled(states[k], steps[k]);
    if steps[k].Refresh? {
      assert Advances(states[k].roles[steps[k].i]);
    } else {
      TakeoverNeedsSilence(states, steps, k, steps[k].i);
    }
  }

  /**
   * Two ticks handled at one reading of the clock, the first a whole interval late: the second
   * refresh stores the timestamp that is there already.
   */
  function LateState(n: nat): State
    requires n <= 9
  {
    var term := Term(0, 0, 15);
    if n == 0 then State(0, None, None, map[0 := Idle])
    else if n == 1 then State(0, None, Some(0), map[0 := Entering])
    else if n == 2 then State(0, None, Some(0), map[0 := Entered(0)])
    else if n == 3 then State(0, None, Some(0), map[0 := Looked(0, None)])
    else if n == 4 then State(0, Some(0), None, map[0 := Master(0, term)])
    else if n == 5 then State(30, Some(0), None, map[0 := Master(0, term)])
    else if n == 6 then State(30, Some(0), None, map[0 := Refreshing(0, Term(0, 0, 30), 30)])
    else if n == 7 then State(30, Some(30), None, map[0 := Master(30, Term(0, 1, 30))])
    else if n == 8 then State(30, Some(30), None, map[0 := Refreshing(30, Term(0, 1, 45), 30)])
    else State(30, Some(30), None, map[0 := Master(30, Term(0, 2, 45))])
  }

  function LateStep(n: nat): Step
    requires n < 9
  {
    [Lock(0), ReadClock(0), ReadStored(0), Decide(0, 0), Tick(30), Fire(0, 0), Refresh(0, true),
     Fire(0, 0), Refresh(0, true)][n]
  }

  lemma LateGoes(n: nat)
    requires n < 9
    ensures Enabled(LateState(n), LateStep(n)) && LateState(n + 1) == Apply(LateState(n), LateStep(n))
  {
  }

  lemma LateRefreshStandsStill() returns (states: seq<State>, steps: seq<Step>)
    ensures Run(states, steps) && |steps| == 9 && Writes(states, steps, 8)
    ensures states[9].stored == states[8].stored
  {
    hide Enabled, Apply;
    states := seq(10, n requires 0 <= n < 10 => LateState(n));
    steps := seq(9, n requires 0 <= n < 9 => LateStep(n));
    forall n | 0 <= n < 9
      ensures Enabled(states[n], steps[n]) && states[n + 1] == Apply(states[n], steps[n])
    {
      LateGoes(n);
    }
  }
}
