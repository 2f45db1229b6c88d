/**
 * The race on one stored transition: workers, abort requests, keep-alives and reapers of any
 * number of instances read the record and later test-and-set or overwrite it. Reads and writes
 * are separate steps; a test-and-set compares the whole record by value.
 */
module RecordProtocol {
  import opened Wrappers

  datatype Status = New | InProgress | Completed | Aborted | AbortSignaled

  /** The stored first page; rest stands for every field not named. */
  datatype Record = Record(status: Status, active: int, compressed: bool, rest: int)

  /** Seconds of silence after which a transition counts as abandoned: three keep-alive intervals. */
  const ABANDONED_AFTER := 30

  predicate Finished(st: Status) {
    st == Completed || st == Aborted
  }

  /**
   * Where a worker stands. It stores the record in two stages before it commands anything,
   * looks for an abort before every phase and at every poll, and ends with one final store.
   */
  datatype Pc =
    | Starting
    | Reading(stage: nat, aborting: bool, tr: Record)
    | Writing(stage: nat, aborting: bool, tr: Record, seen: Record)
    | Stored(stage: nat, aborting: bool, tr: Record)
    | Checking(tr: Record)
    | Cleared(tr: Record)
    | Awaiting(tr: Record)
    | Finishing(final: Status, tr: Record)
    | Gone

  /**
   * An actor between two accesses to the record; since is the time of its last read. For a worker,
   * checked is the step of its last look for an abort and saw whether it found one.
   */
  datatype Actor =
    | AbortRequest(copy: Record)
    | KeepAlive(copy: Record, since: int)
    | Reaper(copy: Record)
    | Worker(pc: Pc, since: int, checked: Option<nat>, saw: bool)

  /**
   * Besides the record and the actors: the step of the first accepted abort, the status of the last
   * final store, whether the request names a component that can be operated on, and whether a worker
   * that starts now finds a task to work on, stored unfinished or to be created.
   */
  datatype State = State(
    rec: Option<Record>,
    clock: int,
    step: nat,
    actors: map<nat, Actor>,
    acceptedAt: Option<nat>,
    ended: Option<Status>,
    valid: bool,
    open: bool)

  datatype Step =
    | Tick(seconds: nat)
    | AbortRead(i: nat)
    | AbortTas(i: nat)
    | KeepRead(i: nat)
    | KeepTas(i: nat, stamp: int)
    | ReapRead(i: nat)
    | ReapTakeOver(i: nat, w: nat)
    | ReapExpire(i: nat, abandoned: bool, w: nat)
    | ReapDelete(i: nat)
    | ReapCompress(i: nat)
    | WorkerStart(i: nat)
    | WorkerRead(i: nat)
    | WorkerTas(i: nat, stamp: int, retry: bool)
    | WorkerStored(i: nat, quit: bool)
    | WorkerCheck(i: nat)
    | WorkerLaunch(i: nat)
    | WorkerPoll(i: nat, settled: bool, last: bool)
    | WorkerSettle(i: nat)
    | WorkerFinish(i: nat)
    | WorkerCrash(i: nat)

  predicate IsLive(a: Actor) {
    a.Worker? && !a.pc.Gone?
  }

  /** Past its first store a worker finishes tasks, and stores them as it does. */
  predicate HasTasks(pc: Pc) {
    !pc.Starting? && !pc.Gone? && !((pc.Reading? || pc.Writing?) && pc.stage == 0)
  }

  ghost predicate NoLiveWorker(s: State) {
    forall i :: i in s.actors ==> !IsLive(s.actors[i])
  }

  predicate Abandoned(s: State, r: Record) {
    r.active + ABANDONED_AFTER < s.clock
  }

  predicate Unended(s: State) {
    s.rec.Some? && !Finished(s.rec.value.status)
  }

  /** Guards. With "single", a record is taken over only when its worker is really gone. */
  ghost predicate Enabled(s: State, step: Step, single: bool) {
    match step
    case Tick(_) => true
    case AbortRead(i) => i !in s.actors && Unended(s)
    case AbortTas(i) => i in s.actors && s.actors[i].AbortRequest?
    case KeepRead(i) => i !in s.actors && Unended(s)
    case KeepTas(i, stamp) => i in s.actors && s.actors[i].KeepAlive? && s.actors[i].since <= stamp <= s.clock
    case ReapRead(i) => i !in s.actors && s.rec.Some?
    case ReapTakeOver(i, w) =>
      && i in s.actors && s.actors[i].Reaper? && w !in s.actors
      && !Finished(s.actors[i].copy.status) && Abandoned(s, s.actors[i].copy)
      && (single && s.rec == Some(s.actors[i].copy) ==> NoLiveWorker(s))
    case ReapExpire(i, abandoned, w) =>
      && i in s.actors && s.actors[i].Reaper? && w !in s.actors
      && !Finished(s.actors[i].copy.status) && (abandoned ==> Abandoned(s, s.actors[i].copy))
      && (single && abandoned && s.rec == Some(s.actors[i].copy) ==> NoLiveWorker(s))
    case ReapDelete(i) => i in s.actors && s.actors[i].Reaper? && Finished(s.actors[i].copy.status)
    case ReapCompress(i) =>
      i in s.actors && s.actors[i].Reaper? && Finished(s.actors[i].copy.status) && !s.actors[i].copy.compressed
    case WorkerStart(i) => i in s.actors && s.actors[i].Worker? && s.actors[i].pc.Starting?
    case WorkerRead(i) => i in s.actors && s.actors[i].Worker? && s.actors[i].pc.Reading?
    case WorkerTas(i, stamp, _) =>
      i in s.actors && s.actors[i].Worker? && s.actors[i].pc.Writing? && s.actors[i].since <= stamp <= s.clock
    case WorkerStored(i, _) => i in s.actors && s.actors[i].Worker? && s.actors[i].pc.Stored?
    case WorkerCheck(i) => i in s.actors && s.actors[i].Worker? && s.actors[i].pc.Checking?
    case WorkerLaunch(i) => i in s.actors && s.actors[i].Worker? && s.actors[i].pc.Cleared?
    case WorkerPoll(i, _, _) => i in s.actors && s.actors[i].Worker? && s.actors[i].pc.Awaiting?
    case WorkerSettle(i) => i in s.actors && IsLive(s.actors[i]) && HasTasks(s.actors[i].pc)
    case WorkerFinish(i) => i in s.actors && s.actors[i].Worker? && s.actors[i].pc.Finishing?
    case WorkerCrash(i) => i in s.actors && IsLive(s.actors[i])
  }

  function Without(actors: map<nat, Actor>, i: nat): map<nat, Actor> {
    map j | j in actors && j != i :: actors[j]
  }

  function Accept(s: State): Option<nat> {
    if s.acceptedAt.Some? then s.acceptedAt else Some(s.step)
  }

  function FreshWorker(now: int): Actor {
    Worker(Starting, now, None, false)
  }

  predicate SignalStored(s: State) {
    s.rec.Some? && s.rec.value.status == AbortSignaled
  }

  /** The worker after a look at the record: an abort signal sends it to its final store. */
  function AfterCheck(s: State, a: Actor, next: Pc): Actor
    requires a.Worker? && (a.pc.Checking? || a.pc.Awaiting?)
  {
    var pc := if SignalStored(s) then Finishing(Aborted, a.pc.tr) else next;
    Worker(pc, s.clock, Some(s.step), a.saw || SignalStored(s))
  }

  predicate IsClient(step: Step) {
    step.Tick? || step.AbortRead? || step.AbortTas? || step.KeepRead? || step.KeepTas?
  }

  predicate IsReap(step: Step) {
    step.ReapRead? || step.ReapTakeOver? || step.ReapExpire? || step.ReapDelete? || step.ReapCompress?
  }

  predicate IsWork(step: Step) {
    !IsClient(step) && !IsReap(step)
  }

  /** The clock, abort requests and keep-alives. */
  function ClientEffect(s: State, step: Step): State
    requires Enabled(s, step, false) && IsClient(step)
  {
    match step
    case Tick(seconds) => s.(clock := s.clock + seconds)
    case AbortRead(i) => s.(actors := s.actors[i := AbortRequest(s.rec.value)])
    case AbortTas(i) =>
      var v := s.actors[i].copy;
      var s' := s.(actors := Without(s.actors, i));
      if s.rec == Some(v) then s'.(rec := Some(v.(status := AbortSignaled)), acceptedAt := Accept(s)) else s'
    case KeepRead(i) => s.(actors := s.actors[i := KeepAlive(s.rec.value, s.clock)])
    case KeepTas(i, stamp) =>
      var v := s.actors[i].copy;
      var s' := s.(actors := Without(s.actors, i));
      if s.rec == Some(v) then s'.(rec := Some(v.(active := stamp))) else s'
  }

  /** The reapers. */
  function ReapEffect(s: State, step: Step): State
    requires Enabled(s, step, false) && IsReap(step)
  {
    match step
    case ReapRead(i) => s.(actors := s.actors[i := Reaper(s.rec.value)])
    case ReapTakeOver(i, w) =>
      var v := s.actors[i].copy;
      var rest := Without(s.actors, i);
      if s.rec == Some(v) then s.(rec := Some(v.(active := s.clock)), actors := rest[w := FreshWorker(s.clock)])
      else s.(actors := rest)
    case ReapExpire(i, abandoned, w) =>
      var v := s.actors[i].copy;
      var rest := Without(s.actors, i);
      if s.rec == Some(v) then
        s.(rec := Some(v.(status := AbortSignaled, active := if abandoned then s.clock else v.active)),
           actors := if abandoned then rest[w := FreshWorker(s.clock)] else rest,
           acceptedAt := Accept(s))
      else s.(actors := rest)
    case ReapDelete(i) => s.(rec := None, actors := Without(s.actors, i))
    case ReapCompress(i) =>
      s.(rec := Some(s.actors[i].copy.(compressed := true)), actors := Without(s.actors, i))
  }

  /** The workers. */
  function WorkEffect(s: State, step: Step): State
    requires Enabled(s, step, false) && IsWork(step)
  {
    match step
    case WorkerStart(i) =>
      var a := s.actors[i];
      if s.rec.None? || Finished(s.rec.value.status) then s.(actors := s.actors[i := a.(pc := Gone)])
      else
        var tr := s.rec.value.(status := InProgress);
        s.(actors := s.actors[i := a.(pc := if s.open then Reading(0, false, tr) else Finishing(Completed, tr))])
    case WorkerRead(i) =>
      var a := s.actors[i];
      var pc := a.pc;
      if s.rec.None? then
        s.(rec := Some(pc.tr.(active := s.clock)),
           actors := s.actors[i := Worker(Stored(pc.stage, pc.aborting, pc.tr), s.clock, Some(s.step), a.saw)])
      else
        var seen := s.rec.value;
        var signaled := seen.status == AbortSignaled;
        var tr := if signaled then pc.tr.(status := AbortSignaled) else pc.tr;
        s.(actors := s.actors[i := Worker(Writing(pc.stage, pc.aborting || signaled, tr, seen),
                                          s.clock, Some(s.step), a.saw || signaled)])
    case WorkerTas(i, stamp, retry) =>
      var a := s.actors[i];
      var pc := a.pc;
      if s.rec == Some(pc.seen) then
        s.(rec := Some(pc.tr.(active := stamp)),
           actors := s.actors[i := a.(pc := Stored(pc.stage, pc.aborting, pc.tr))])
      else
        s.(actors := s.actors[i := a.(pc := if retry then Reading(pc.stage, pc.aborting, pc.tr)
                                            else Stored(pc.stage, pc.aborting, pc.tr))])
    case WorkerStored(i, quit) =>
      var a := s.actors[i];
      var pc := a.pc;
      var next :=
        if pc.aborting then Finishing(Aborted, pc.tr)
        else if quit then Finishing(Completed, pc.tr)
        else if pc.stage == 0 then Reading(1, false, pc.tr)
        else Checking(pc.tr);
      s.(actors := s.actors[i := a.(pc := next)])
    case WorkerCheck(i) =>
      s.(actors := s.actors[i := AfterCheck(s, s.actors[i], Cleared(s.actors[i].pc.tr))])
    case WorkerLaunch(i) =>
      s.(actors := s.actors[i := s.actors[i].(pc := Awaiting(s.actors[i].pc.tr))], open := true)
    case WorkerPoll(i, settled, last) =>
      var tr := s.actors[i].pc.tr;
      var next := if !settled then Awaiting(tr) else if last then Finishing(Completed, tr) else Checking(tr);
      s.(actors := s.actors[i := AfterCheck(s, s.actors[i], next)])
    case WorkerSettle(i) => s.(open := false)
    case WorkerFinish(i) =>
      var a := s.actors[i];
      s.(rec := Some(a.pc.tr.(status := a.pc.final, compressed := true)), ended := Some(a.pc.final), open := s.valid,
         actors := s.actors[i := a.(pc := Gone)])
    case WorkerCrash(i) => s.(actors := s.actors[i := s.actors[i].(pc := Gone)])
  }

  function Effect(s: State, step: Step): State
    requires Enabled(s, step, false)
  {
    if IsClient(step) then ClientEffect(s, step)
    else if IsReap(step) then ReapEffect(s, step)
    else WorkEffect(s, step)
  }

  function Apply(s: State, step: Step): State
    requires Enabled(s, step, false)
  {
    Effect(s, step).(step := s.step + 1)
  }

  /** The record has just been created and its first worker started. */
  ghost predicate Initial(s: State) {
    && s.rec.Some? && s.rec.value.status == New && s.rec.value.active <= s.clock && !s.rec.value.compressed
    && s.open == s.valid
    && s.actors == map[0 := FreshWorker(s.clock)]
    && s.acceptedAt == None && s.ended == None && s.step == 0
  }

  ghost predicate Run(states: seq<State>, steps: seq<Step>, single: bool) {
    && |states| == |steps| + 1
    && Initial(states[0])
    && forall k :: 0 <= k < |steps| ==>
        Enabled(states[k], steps[k], single) && states[k + 1] == Apply(states[k], steps[k])
  }

  predicate IsTas(step: Step) {
    step.AbortTas? || step.KeepTas? || step.ReapTakeOver? || step.ReapExpire? || step.WorkerTas?
  }

  // ---- Any number of workers: an abort signal survives every test-and-set ----

  ghost predicate HonestCopy(a: Actor) {
    match a
    case AbortRequest(copy) => !Finished(copy.status)
    case KeepAlive(copy, _) => !Finished(copy.status)
    case Reaper(_) => true
    case Worker(pc, _, _, _) => pc.Writing? && pc.seen.status == AbortSignaled ==> pc.tr.status == AbortSignaled
  }

  /** Times of reads and copies do not run ahead of the clock. */
  ghost predicate Timely(s: State, a: Actor) {
    match a
    case AbortRequest(copy) => copy.active <= s.clock
    case KeepAlive(copy, since) => copy.active <= since <= s.clock
    case Reaper(copy) => copy.active <= s.clock
    case Worker(pc, since, _, _) =>
      && since <= s.clock
      && (pc.Writing? ==> pc.seen.active <= since)
      && (!pc.Starting? && !pc.Gone? ==> pc.tr.active <= s.clock)
  }

  /** What holds of an actor among any number of workers, whatever the interleaving. */
  ghost predicate SaneActor(s: State, a: Actor) {
    && HonestCopy(a)
    && Timely(s, a)
    && (a.Worker? && a.pc.Finishing? ==> Finished(a.pc.final))
  }

  ghost predicate Sane(s: State) {
    && (s.rec.Some? ==> s.rec.value.active <= s.clock)
    && forall i :: i in s.actors ==> SaneActor(s, s.actors[i])
  }

  lemma SaneClient(s: State, step: Step, j: nat)
    requires Sane(s) && Enabled(s, step, false) && IsClient(step)
    ensures var s' := Apply(s, step);
            && (s'.rec.Some? ==> s'.rec.value.active <= s'.clock)
            && (j in s'.actors ==> SaneActor(s', s'.actors[j]))
  {
  }

  lemma SaneReap(s: State, step: Step, j: nat)
    requires Sane(s) && Enabled(s, step, false) && IsReap(step)
    ensures var s' := Apply(s, step);
            && (s'.rec.Some? ==> s'.rec.value.active <= s'.clock)
            && (j in s'.actors ==> SaneActor(s', s'.actors[j]))
  {
  }

  lemma SaneStore(s: State, step: Step, j: nat)
    requires Sane(s) && Enabled(s, step, false) && (step.WorkerRead? || step.WorkerTas?)
    ensures var s' := Apply(s, step);
            && (s'.rec.Some? ==> s'.rec.value.active <= s'.clock)
            && (j in s'.actors ==> SaneActor(s', s'.actors[j]))
  {
  }

  lemma SaneWork(s: State, step: Step, j: nat)
    requires Sane(s) && Enabled(s, step, false) && IsWork(step) && !step.WorkerRead? && !step.WorkerTas?
    ensures var s' := Apply(s, step);
            && (s'.rec.Some? ==> s'.rec.value.active <= s'.clock)
            && (j in s'.actors ==> SaneActor(s', s'.actors[j]))
  {
  }

  lemma SaneAt(s: State, step: Step, j: nat)
    requires Sane(s) && Enabled(s, step, false)
    ensures var s' := Apply(s, step);
            && (s'.rec.Some? ==> s'.rec.value.active <= s'.clock)
            && (j in s'.actors ==> SaneActor(s', s'.actors[j]))
  {
    hide Sane, SaneActor, Apply, Enabled;
    if IsClient(step) { SaneClient(s, step, j); }
    else if IsReap(step) { SaneReap(s, step, j); }
    else if step.WorkerRead? || step.WorkerTas? { SaneStore(s, step, j); }
    else { SaneWork(s, step, j); }
  }

  lemma SaneStep(s: State, step: Step)
    requires Sane(s) && Enabled(s, step, false)
    ensures Sane(Apply(s, step))
  {
    hide SaneActor, Apply, Enabled;
    var s' := Apply(s, step);
    SaneAt(s, step, 0);
    forall j | j in s'.actors ensures SaneActor(s', s'.actors[j]) {
      SaneAt(s, step, j);
    }
  }

  lemma {:induction false} SaneRun(states: seq<State>, steps: seq<Step>, k: nat)
    requires Run(states, steps, false) && k < |states|
    ensures Sane(states[k])
  {
    if k > 0 {
      SaneRun(states, steps, k - 1);
      SaneStep(states[k - 1], steps[k - 1]);
    }
  }

  /** Whatever the interleaving, no successful test-and-set replaces abort-signaled by another status. */
  lemma SignalSurvivesTas(states: seq<State>, steps: seq<Step>, k: nat)
    requires Run(states, steps, false) && k < |steps|
    requires IsTas(steps[k]) && SignalStored(states[k])
    ensures SignalStored(states[k + 1])
  {
    SaneRun(states, steps, k);
    assert SaneActor(states[k], states[k].actors[steps[k].i]);
  }

  // ---- One live worker per record ----

  predicate LookedAfter(checked: Option<nat>, acceptedAt: Option<nat>) {
    checked.Some? && acceptedAt.Some? && checked.value > acceptedAt.value
  }

  /** A worker that looked after the acceptance saw the signal, and one that saw it is on its way to aborted. */
  ghost predicate Attentive(s: State, a: Actor)
    requires a.Worker?
  {
    && (a.checked.Some? ==> a.checked.value < s.step)
    && (a.saw <==> LookedAfter(a.checked, s.acceptedAt))
    && match a.pc
       case Starting => !a.saw
       case Reading(_, aborting, tr) =>
         (aborting <==> a.saw) && tr.status == if aborting then AbortSignaled else InProgress
       case Writing(_, aborting, tr, seen) =>
         && (aborting <==> a.saw) && tr.status == (if aborting then AbortSignaled else InProgress)
         && (aborting <==> seen.status == AbortSignaled) && a.checked.Some?
       case Stored(_, aborting, tr) =>
         (aborting <==> a.saw) && a.checked.Some? && (!aborting ==> tr.status == InProgress)
       case Finishing(final, _) => Finished(final) && (final == Aborted <==> a.saw)
       case Gone => true
       case _ => !a.saw && a.checked.Some?
  }

  predicate CopyOf(a: Actor, final: Status) {
    a.Reaper? && Finished(a.copy.status) ==> a.copy.status == final
  }

  ghost predicate OneLive(s: State) {
    forall i, j :: i in s.actors && j in s.actors && IsLive(s.actors[i]) && IsLive(s.actors[j]) ==> i == j
  }

  /** How far the record has come: unfinished with the signal stored exactly once accepted, or finished for good. */
  ghost predicate Story(s: State) {
    && (s.acceptedAt.Some? ==> s.acceptedAt.value < s.step)
    && match s.ended
       case None =>
         && Unended(s)
         && (s.acceptedAt.Some? <==> SignalStored(s))
         && (forall i :: i in s.actors && s.actors[i].Reaper? ==> !Finished(s.actors[i].copy.status))
         && (forall i :: i in s.actors && IsLive(s.actors[i]) ==> Attentive(s, s.actors[i]))
       case Some(final) =>
         && Finished(final)
         && NoLiveWorker(s)
         && (s.rec.Some? ==> s.rec.value.status == final)
         && (forall i :: i in s.actors ==> CopyOf(s.actors[i], final))
  }

  ghost predicate SingleInv(s: State) {
    Sane(s) && OneLive(s) && Story(s)
  }

  lemma InitialHolds(s: State)
    requires Initial(s)
    ensures SingleInv(s)
  {
  }

  lemma SingleStep(s: State, step: Step)
    requires SingleInv(s) && Enabled(s, step, true)
    ensures SingleInv(Apply(s, step))
  {
    hide Sane, Story, OneLive, Apply;
    SaneStep(s, step);
    if step.WorkerStart? || step.WorkerStored? {
      StartStep(s, step);
    } else if step.WorkerRead? {
      ReadStep(s, step);
    } else if step.WorkerTas? {
      TasStep(s, step);
    } else if step.WorkerCheck? || step.WorkerPoll? {
      LookStep(s, step);
    } else if step.WorkerLaunch? || step.WorkerSettle? || step.WorkerFinish? || step.WorkerCrash? {
      WorkStep(s, step);
    } else if step.ReapTakeOver? {
      TakeOverStep(s, step);
    } else if step.ReapExpire? {
      ExpireStep(s, step);
    } else if step.ReapRead? || step.ReapDelete? || step.ReapCompress? {
      ReapStep(s, step);
    } else if step.AbortTas? || step.KeepTas? {
      ClientStep(s, step);
    } else {
      ReadersStep(s, step);
    }
  }

  lemma StartStep(s: State, step: Step)
    requires SingleInv(s) && Enabled(s, step, true)
    requires step.WorkerStart? || step.WorkerStored?
    ensures OneLive(Apply(s, step)) && Story(Apply(s, step))
  {
    hide Timely, SaneActor;
  }

  lemma ReadStep(s: State, step: Step)
    requires SingleInv(s) && Enabled(s, step, true)
    requires step.WorkerRead?
    ensures OneLive(Apply(s, step)) && Story(Apply(s, step))
  {
    hide Timely, SaneActor;
  }

  lemma TasStep(s: State, step: Step)
    requires SingleInv(s) && Enabled(s, step, true)
    requires step.WorkerTas?
    ensures OneLive(Apply(s, step)) && Story(Apply(s, step))
  {
    hide Timely, SaneActor;
  }

  lemma LookStep(s: State, step: Step)
    requires SingleInv(s) && Enabled(s, step, true)
    requires step.WorkerCheck? || step.WorkerPoll?
    ensures OneLive(Apply(s, step)) && Story(Apply(s, step))
  {
    hide Timely, SaneActor;
  }

  lemma WorkStep(s: State, step: Step)
    requires SingleInv(s) && Enabled(s, step, true)
    requires step.WorkerLaunch? || step.WorkerSettle? || step.WorkerFinish? || step.WorkerCrash?
    ensures OneLive(Apply(s, step)) && Story(Apply(s, step))
  {
    hide Timely;
  }

  lemma TakeOverStep(s: State, step: Step)
    requires SingleInv(s) && Enabled(s, step, true)
    requires step.ReapTakeOver?
    ensures OneLive(Apply(s, step)) && Story(Apply(s, step))
  {
    hide Timely, SaneActor;
  }

  lemma ExpireStep(s: State, step: Step)
    requires SingleInv(s) && Enabled(s, step, true)
    requires step.ReapExpire?
    ensures OneLive(Apply(s, step)) && Story(Apply(s, step))
  {
    hide Timely, SaneActor;
  }

  lemma ReapStep(s: State, step: Step)
    requires SingleInv(s) && Enabled(s, step, true)
    requires step.ReapRead? || step.ReapDelete? || step.ReapCompress?
    ensures OneLive(Apply(s, step)) && Story(Apply(s, step))
  {
    hide Timely, SaneActor;
  }

  lemma ReadersStep(s: State, step: Step)
    requires SingleInv(s) && Enabled(s, step, true)
    requires step.Tick? || step.AbortRead? || step.KeepRead?
    ensures OneLive(Apply(s, step)) && Story(Apply(s, step))
  {
    hide Timely, SaneActor;
  }

  lemma ClientStep(s: State, step: Step)
    requires SingleInv(s) && Enabled(s, step, true)
    requires step.AbortTas? || step.KeepTas?
    ensures OneLive(Apply(s, step)) && Story(Apply(s, step))
  {
    hide Timely;
  }

  lemma {:induction false} SingleRun(states: seq<State>, steps: seq<Step>, k: nat)
    requires Run(states, steps, true) && k < |states|
    ensures SingleInv(states[k])
  {
    if k == 0 {
      InitialHolds(states[0]);
    } else {
      SingleRun(states, steps, k - 1);
      SingleStep(states[k - 1], steps[k - 1]);
    }
  }

  // ---- Finished records stay finished ----

  lemma {:induction false} EndedStays(states: seq<State>, steps: seq<Step>, k: nat, m: nat)
    requires Run(states, steps, true) && k <= m < |states|
    requires states[k].ended.Some?
    ensures states[m].ended == states[k].ended
    decreases m
  {
    if k < m {
      EndedStays(states, steps, k, m - 1);
      SingleRun(states, steps, m - 1);
      assert Enabled(states[m - 1], steps[m - 1], true);
    }
  }

  /** No worker is left, the record if there is one is finished so, and so is every finished copy a reaper holds. */
  ghost predicate AtRest(s: State, final: Status) {
    && Finished(final)
    && NoLiveWorker(s)
    && (s.rec.Some? ==> s.rec.value.status == final)
    && (forall i :: i in s.actors ==> CopyOf(s.actors[i], final))
  }

  lemma AtRestStep(s: State, step: Step, final: Status)
    requires AtRest(s, final) && Sane(s) && Enabled(s, step, false)
    ensures AtRest(Apply(s, step), final)
  {
  }

  /**
   * In any run, once no worker is live and every finished copy agrees with the finished record,
   * its status stays until the record is deleted, and no worker is ever started for it again.
   */
  lemma {:induction false} RestIsAbsorbing(states: seq<State>, steps: seq<Step>, k: nat, m: nat, final: Status)
    requires Run(states, steps, false) && k <= m < |states|
    requires AtRest(states[k], final)
    ensures AtRest(states[m], final)
    decreases m
  {
    if k < m {
      RestIsAbsorbing(states, steps, k, m - 1, final);
      SaneRun(states, steps, m - 1);
      AtRestStep(states[m - 1], steps[m - 1], final);
    }
  }

  lemma SingleIsRun(states: seq<State>, steps: seq<Step>)
    requires Run(states, steps, true)
    ensures Run(states, steps, false)
  {
    assert forall k :: 0 <= k < |steps| ==> Enabled(states[k], steps[k], true);
  }

  /** With one live worker per record, completed and aborted are absorbing until the record is deleted. */
  lemma FinishedIsAbsorbing(states: seq<State>, steps: seq<Step>, k: nat, m: nat)
    requires Run(states, steps, true) && k <= m < |states|
    requires states[k].rec.Some? && Finished(states[k].rec.value.status)
    ensures states[m].rec.None? || states[m].rec.value.status == states[k].rec.value.status
  {
    SingleRun(states, steps, k);
    SingleIsRun(states, steps);
    RestIsAbsorbing(states, steps, k, m, states[k].rec.value.status);
  }

  // ---- An accepted abort ----

  lemma {:induction false} AcceptedStays(states: seq<State>, steps: seq<Step>, k: nat, m: nat)
    requires Run(states, steps, true) && k <= m < |states|
    requires states[k].acceptedAt.Some?
    ensures states[m].acceptedAt == states[k].acceptedAt
    decreases m
  {
    if k < m {
      AcceptedStays(states, steps, k, m - 1);
      assert Enabled(states[m - 1], steps[m - 1], true);
    }
  }

  /** An accepted abort stays in the record until a worker's final store. */
  lemma AcceptedAbortStays(states: seq<State>, steps: seq<Step>, k: nat, m: nat)
    requires Run(states, steps, true) && k <= m < |states|
    requires states[k].acceptedAt.Some? && states[m].ended.None?
    ensures SignalStored(states[m])
  {
    AcceptedStays(states, steps, k, m);
    SingleRun(states, steps, m);
  }

  /** Commands launched after the acceptance belong to a phase whose abort check came before it. */
  lemma LaunchAfterAcceptance(states: seq<State>, steps: seq<Step>, k: nat)
    requires Run(states, steps, true) && k < |steps|
    requires steps[k].WorkerLaunch? && states[k].acceptedAt.Some?
    ensures var a := states[k].actors[steps[k].i];
            a.checked.Some? && a.checked.value <= states[k].acceptedAt.value
  {
    SingleRun(states, steps, k);
    assert Enabled(states[k], steps[k], true);
    assert IsLive(states[k].actors[steps[k].i]);
  }

  /** The final status is aborted exactly when the finishing worker looked at the record after the acceptance. */
  lemma FinalStatusExactly(states: seq<State>, steps: seq<Step>, k: nat)
    requires Run(states, steps, true) && k < |steps|
    requires steps[k].WorkerFinish?
    ensures var a := states[k].actors[steps[k].i];
            && states[k + 1].ended.Some? && Finished(states[k + 1].ended.value)
            && (states[k + 1].ended == Some(Aborted) <==> LookedAfter(a.checked, states[k].acceptedAt))
  {
    SingleRun(states, steps, k);
    assert Enabled(states[k], steps[k], true);
    assert IsLive(states[k].actors[steps[k].i]);
  }

  // ---- Takeover ----

  /** Step k is a test-and-set that takes the version v over and starts a worker for it. */
  ghost predicate TakesOver(states: seq<State>, steps: seq<Step>, k: nat, v: Record)
    requires k < |steps| && |steps| < |states|
  {
    && (steps[k].ReapTakeOver? || (steps[k].ReapExpire? && steps[k].abandoned))
    && steps[k].i in states[k].actors
    && states[k].actors[steps[k].i] == Reaper(v)
    && states[k].rec == Some(v)
  }

  /** Worker i has read a finished version and is about to test-and-set over it. */
  predicate Reopens(s: State, i: nat) {
    i in s.actors && s.actors[i].Worker? && s.actors[i].pc.Writing? && Finished(s.actors[i].pc.seen.status)
  }

  /** A step that puts a finished version in place. */
  predicate IsFinal(step: Step) {
    step.WorkerFinish? || step.ReapCompress?
  }

  /** No unfinished version from before time t is stored or can be brought back. */
  ghost predicate Renewed(s: State, t: int) {
    && t <= s.clock
    && (Unended(s) ==> t <= s.rec.value.active)
    && (forall i :: Reopens(s, i) ==> t <= s.actors[i].since)
  }

  lemma RenewedStep(s: State, step: Step, t: int)
    requires Sane(s) && Enabled(s, step, false) && Renewed(s, t)
    ensures Renewed(Apply(s, step), t)
  {
    var s' := Apply(s, step);
    forall i | Reopens(s', i) ensures t <= s'.actors[i].since {
      assert step == WorkerRead(i) || Reopens(s, i);
    }
    if step.WorkerTas? {
      assert Timely(s, s.actors[step.i]);
      assert Finished(s.actors[step.i].pc.seen.status) ==> Reopens(s, step.i);
    }
    if step.KeepTas? {
      assert Timely(s, s.actors[step.i]);
    }
  }

  lemma {:induction false} RenewedRun(states: seq<State>, steps: seq<Step>, k: nat, m: nat, t: int)
    requires Run(states, steps, false) && k <= m < |states|
    requires Renewed(states[k], t)
    ensures Renewed(states[m], t)
    decreases m
  {
    if k < m {
      RenewedRun(states, steps, k, m - 1, t);
      SaneRun(states, steps, m - 1);
      RenewedStep(states[m - 1], steps[m - 1], t);
    }
  }

  /** Every stored version is from time t or later. */
  predicate Recent(s: State, t: int) {
    t <= s.clock && (s.rec.Some? ==> t <= s.rec.value.active)
  }

  lemma RecentStep(s: State, step: Step, t: int)
    requires Sane(s) && Enabled(s, step, false) && Recent(s, t) && !IsFinal(step)
    ensures Recent(Apply(s, step), t)
  {
    if step.WorkerTas? || step.KeepTas? {
      assert Timely(s, s.actors[step.i]);
    }
  }

  lemma {:induction false} RecentRun(states: seq<State>, steps: seq<Step>, k: nat, m: nat, t: int)
    requires Run(states, steps, false) && k <= m < |states|
    requires Recent(states[k], t)
    requires forall n :: k <= n < m ==> !IsFinal(steps[n])
    ensures Recent(states[m], t)
    decreases m
  {
    if k < m {
      RecentRun(states, steps, k, m - 1, t);
      SaneRun(states, steps, m - 1);
      RecentStep(states[m - 1], steps[m - 1], t);
    }
  }

  /** A takeover stores a version of its own time, later than the one it takes over. */
  lemma TakeoverRenews(states: seq<State>, steps: seq<Step>, k: nat, v: Record)
    requires Run(states, steps, false) && k < |steps| && TakesOver(states, steps, k, v)
    ensures v.active < states[k].clock && !Finished(v.status)
    ensures Recent(states[k + 1], states[k].clock)
    ensures (forall i :: !Reopens(states[k], i)) ==> Renewed(states[k + 1], states[k].clock)
  {
    assert Enabled(states[k], steps[k], false);
    var s' := Apply(states[k], steps[k]);
    assert states[k + 1] == s';
    assert s'.rec == Some(s'.rec.value) && s'.rec.value.active == states[k].clock == s'.clock;
    assert forall i :: Reopens(s', i) ==> Reopens(states[k], i);
  }

  /**
   * Of any number of reapers holding the same abandoned version at most one ever takes it over,
   * with any number of workers alive: as long as no final store or compression comes between, and
   * for good when no worker was about to write over a finished version at the takeover.
   */
  lemma TakenOverOnce(states: seq<State>, steps: seq<Step>, k: nat, m: nat, v: Record)
    requires Run(states, steps, false) && k < m < |steps|
    requires TakesOver(states, steps, k, v)
    requires (forall i :: !Reopens(states[k], i)) || (forall n :: k < n < m ==> !IsFinal(steps[n]))
    ensures !TakesOver(states, steps, m, v)
  {
    var t := states[k].clock;
    TakeoverRenews(states, steps, k, v);
    if forall i :: !Reopens(states[k], i) {
      RenewedRun(states, steps, k + 1, m, t);
    } else {
      RecentRun(states, steps, k + 1, m, t);
    }
  }

  // ---- What renewing the record is for ----

  /** Step k is a test-and-set of a keep-alive or a worker that passes. */
  ghost predicate Renewal(states: seq<State>, steps: seq<Step>, k: nat)
    requires k < |steps| && |steps| < |states|
  {
    && (steps[k].KeepTas? || steps[k].WorkerTas?) && Enabled(states[k], steps[k], false)
    && states[k].rec == Some(if steps[k].KeepTas? then states[k].actors[steps[k].i].copy
                             else states[k].actors[steps[k].i].pc.seen)
  }

  /**
   * A passing keep-alive leaves the record as it was but for the time, which is the keep-alive's; a
   * worker's passing store puts its own copy there, with its time.
   */
  lemma RenewalIsStored(states: seq<State>, steps: seq<Step>, k: nat)
    requires Run(states, steps, false) && k < |steps| && Renewal(states, steps, k)
    ensures states[k + 1].rec.Some? && states[k + 1].rec.value.active == steps[k].stamp
    ensures steps[k].KeepTas? ==> states[k + 1].rec.value == states[k].rec.value.(active := steps[k].stamp)
    ensures steps[k].WorkerTas? ==>
              states[k + 1].rec.value == states[k].actors[steps[k].i].pc.tr.(active := steps[k].stamp)
    ensures Recent(states[k + 1], steps[k].stamp)
    ensures (forall i :: !Reopens(states[k], i)) ==> Renewed(states[k + 1], steps[k].stamp)
  {
    var s' := Apply(states[k], steps[k]);
    assert states[k + 1] == s';
    assert s'.clock == states[k].clock;
    assert forall i :: Reopens(s', i) ==> Reopens(states[k], i);
  }

  /**
   * What a renewal is for: no version that is stored from then on is taken over until more than 30
   * seconds after its time, unless a final store or compression comes between, and not even then if
   * no worker was about to write over a finished version.
   */
  lemma RenewalHoldsReapersOff(states: seq<State>, steps: seq<Step>, k: nat, m: nat, v: Record)
    requires Run(states, steps, false) && k < m < |steps|
    requires Renewal(states, steps, k) && TakesOver(states, steps, m, v)
    requires (forall i :: !Reopens(states[k], i)) || (forall n :: k < n < m ==> !IsFinal(steps[n]))
    ensures states[m].clock > steps[k].stamp + 30
  {
    RenewalIsStored(states, steps, k);
    if forall i :: !Reopens(states[k], i) {
      RenewedRun(states, steps, k + 1, m, steps[k].stamp);
    } else {
      RecentRun(states, steps, k + 1, m, steps[k].stamp);
    }
    assert Enabled(states[m], steps[m], false);
  }

  // ---- What the other writers leave ----

  /** An abort request that passes leaves the record as it was but for the signal, and is accepted. */
  lemma AbortIsAccepted(states: seq<State>, steps: seq<Step>, k: nat)
    requires Run(states, steps, false) && k < |steps| && steps[k].AbortTas?
    requires steps[k].i in states[k].actors && states[k].rec == Some(states[k].actors[steps[k].i].copy)
    ensures states[k + 1].rec == Some(states[k].rec.value.(status := AbortSignaled))
    ensures states[k + 1].acceptedAt.Some? && SignalStored(states[k + 1])
  {
    assert Enabled(states[k], steps[k], false);
  }

  /**
   * A takeover that passes leaves the record as it was but for the time, which is now, and for an
   * expired one the signal; a worker is live for it, and it was silent for more than 30 seconds.
   */
  lemma TakeoverStartsWorker(states: seq<State>, steps: seq<Step>, k: nat, v: Record)
    requires Run(states, steps, false) && k < |steps| && TakesOver(states, steps, k, v)
    ensures v.active + 30 < states[k].clock && !Finished(v.status)
    ensures states[k + 1].rec == Some(v.(active := states[k].clock,
                                         status := if steps[k].ReapExpire? then AbortSignaled else v.status))
    ensures steps[k].w in states[k + 1].actors && IsLive(states[k + 1].actors[steps[k].w])
    ensures steps[k].w !in states[k].actors
  {
    assert Enabled(states[k], steps[k], false);
  }

  /** A final store leaves a finished, compressed record and no trace of its worker; a deletion leaves none. */
  lemma FinalStoreEnds(states: seq<State>, steps: seq<Step>, k: nat)
    requires Run(states, steps, false) && k < |steps|
    ensures steps[k].WorkerFinish? ==>
              && states[k + 1].rec.Some? && Finished(states[k + 1].rec.value.status)
                  && states[k + 1].rec.value.compressed
              && !IsLive(states[k + 1].actors[steps[k].i])
              && states[k + 1].ended == Some(states[k + 1].rec.value.status)
    ensures steps[k].ReapDelete? ==> states[k + 1].rec == None
  {
    SaneRun(states, steps, k);
    assert Enabled(states[k], steps[k], false);
    if steps[k].WorkerFinish? {
      assert SaneActor(states[k], states[k].actors[steps[k].i]);
    }
  }
}
