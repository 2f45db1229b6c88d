/** Runs of the record protocol that show what its results do not promise. */
module RecordCases {
  import opened Wrappers
  import opened RecordProtocol

  const R0 := Record(New, 0, false, 7)
  const TR := Record(InProgress, 0, false, 7)
  const SIGNALED := Record(AbortSignaled, 0, false, 7)

  /** A state of a request that can be operated on, with its tasks open. */
  function At(rec: Record, clock: int, step: nat, actors: map<nat, Actor>, ended: Option<Status>): State {
    State(Some(rec), clock, step, actors, None, ended, true, true)
  }

  // ---- Two live workers reopen a completed record ----

  /**
   * Two workers: the first falls silent for half a minute, is replaced, and wakes up after the
   * second has found nothing to operate on and completed the transition; its store puts the record
   * back in progress.
   */
  function OverwriteState(n: nat): State
    requires n <= 11
  {
    var w0 := Worker(Reading(0, false, TR), 0, None, false);
    var late := R0.(active := 31);
    var tr2 := Record(InProgress, 31, false, 7);
    var done := Record(Completed, 31, true, 7);
    var b := Worker(Writing(0, false, tr2, late), 31, Some(5), false);
    var woken := Worker(Writing(0, false, TR, done), 31, Some(9), false);
    if n == 0 then At(R0, 0, 0, map[0 := FreshWorker(0)], None)
    else if n == 1 then At(R0, 0, 1, map[0 := w0], None)
    else if n == 2 then At(R0, 31, 2, map[0 := w0], None)
    else if n == 3 then At(R0, 31, 3, map[0 := w0, 1 := Reaper(R0)], None)
    else if n == 4 then At(late, 31, 4, map[0 := w0, 2 := FreshWorker(31)], None)
    else if n == 5 then At(late, 31, 5, map[0 := w0, 2 := Worker(Reading(0, false, tr2), 31, None, false)], None)
    else if n == 6 then At(late, 31, 6, map[0 := w0, 2 := b], None)
    else if n == 7 then At(tr2, 31, 7, map[0 := w0, 2 := b.(pc := Stored(0, false, tr2))], None)
    else if n == 8 then At(tr2, 31, 8, map[0 := w0, 2 := b.(pc := Finishing(Completed, tr2))], None)
    else if n == 9 then At(done, 31, 9, map[0 := w0, 2 := b.(pc := Gone)], Some(Completed))
    else if n == 10 then At(done, 31, 10, map[0 := woken, 2 := b.(pc := Gone)], Some(Completed))
    else At(tr2, 31, 11, map[0 := woken.(pc := Stored(0, false, TR)), 2 := b.(pc := Gone)], Some(Completed))
  }

  function OverwriteStep(n: nat): Step
    requires n < 11
  {
    [WorkerStart(0), Tick(31), ReapRead(1), ReapTakeOver(1, 2), WorkerStart(2), WorkerRead(2),
     WorkerTas(2, 31, false), WorkerStored(2, true), WorkerFinish(2), WorkerRead(0), WorkerTas(0, 31, false)][n]
  }

  lemma OverwriteGoesEarly(n: nat)
    requires n < 6
    ensures Enabled(OverwriteState(n), OverwriteStep(n), false)
    ensures OverwriteState(n + 1) == Apply(OverwriteState(n), OverwriteStep(n))
  {
  }

  lemma OverwriteGoesLate(n: nat)
    requires 6 <= n < 11
    ensures Enabled(OverwriteState(n), OverwriteStep(n), false)
    ensures OverwriteState(n + 1) == Apply(OverwriteState(n), OverwriteStep(n))
  {
  }

  lemma CompletedIsOverwritten() returns (states: seq<State>, steps: seq<Step>, k: nat)
    ensures Run(states, steps, false) && k + 2 < |states|
    ensures states[k].rec.Some? && states[k].rec.value.status == Completed
    ensures states[k + 2].rec.Some? && states[k + 2].rec.value.status == InProgress
  {
    hide Enabled, Apply;
    states := seq(12, n requires 0 <= n < 12 => OverwriteState(n));
    steps := seq(11, n requires 0 <= n < 11 => OverwriteStep(n));
    k := 9;
    forall n | 0 <= n < 11
      ensures Enabled(states[n], steps[n], false) && states[n + 1] == Apply(states[n], steps[n])
    {
      if n < 6 { OverwriteGoesEarly(n); } else { OverwriteGoesLate(n); }
    }
  }

  // ---- A version that is taken over twice ----

  /** The version that is taken over, and the completed one that comes before and after it. */
  const V := Record(InProgress, 93, false, 7)
  const DONE := Record(Completed, 93, true, 7)

  /** A worker that has started on the version of time 93, and where it goes from there. */
  function Begun(since: int): Actor {
    Worker(Reading(0, false, V), since, None, false)
  }

  function Seen(seen: Record, step: nat): Actor {
    Worker(Writing(0, false, V, seen), 93, Some(step), false)
  }

  /** Three workers fall silent before they start and are replaced; all four start on the same version. */
  function StartingState(n: nat): State
    requires n <= 13
  {
    var a, b, c, d := FreshWorker(0), FreshWorker(31), FreshWorker(62), FreshWorker(93);
    var r31, r62, r93 := R0.(active := 31), R0.(active := 62), R0.(active := 93);
    if n == 0 then At(R0, 0, 0, map[0 := a], None)
    else if n == 1 then At(R0, 31, 1, map[0 := a], None)
    else if n == 2 then At(R0, 31, 2, map[0 := a, 1 := Reaper(R0)], None)
    else if n == 3 then At(r31, 31, 3, map[0 := a, 2 := b], None)
    else if n == 4 then At(r31, 62, 4, map[0 := a, 2 := b], None)
    else if n == 5 then At(r31, 62, 5, map[0 := a, 2 := b, 3 := Reaper(r31)], None)
    else if n == 6 then At(r62, 62, 6, map[0 := a, 2 := b, 4 := c], None)
    else if n == 7 then At(r62, 93, 7, map[0 := a, 2 := b, 4 := c], None)
    else if n == 8 then At(r62, 93, 8, map[0 := a, 2 := b, 4 := c, 5 := Reaper(r62)], None)
    else if n == 9 then At(r93, 93, 9, map[0 := a, 2 := b, 4 := c, 6 := d], None)
    else if n == 10 then At(r93, 93, 10, map[0 := Begun(0), 2 := b, 4 := c, 6 := d], None)
    else if n == 11 then At(r93, 93, 11, map[0 := Begun(0), 2 := Begun(31), 4 := c, 6 := d], None)
    else if n == 12 then At(r93, 93, 12, map[0 := Begun(0), 2 := Begun(31), 4 := Begun(62), 6 := d], None)
    else At(r93, 93, 13, map[0 := Begun(0), 2 := Begun(31), 4 := Begun(62), 6 := Begun(93)], None)
  }

  /**
   * Two of them find nothing to operate on and one stores completed; the other two read that, and
   * one reopens the record. The version is abandoned and taken over; then the second final store
   * puts the same completed version back, and the last worker's store brings back the version that
   * was taken over.
   */
  function AgainState(n: nat): State
    requires n <= 30
  {
    var c0, d0 := Begun(62), Begun(93);
    var b := Seen(R0.(active := 93), 13);
    var a := Seen(V, 16);
    var c, d := Seen(DONE, 20), Seen(DONE, 21);
    var aEnd, bGone := a.(pc := Finishing(Completed, V)), b.(pc := Gone);
    var cPut, dPut := c.(pc := Stored(0, false, V)), d.(pc := Stored(0, false, V));
    var taken, w := V.(active := 124), FreshWorker(124);
    var end: Option<Status> := Some(Completed);
    if n <= 13 then StartingState(n)
    else if n == 14 then At(R0.(active := 93), 93, 14, map[0 := Begun(0), 2 := b, 4 := c0, 6 := d0], None)
    else if n == 15 then At(V, 93, 15, map[0 := Begun(0), 2 := b.(pc := Stored(0, false, V)), 4 := c0, 6 := d0], None)
    else if n == 16 then
      At(V, 93, 16, map[0 := Begun(0), 2 := b.(pc := Finishing(Completed, V)), 4 := c0, 6 := d0], None)
    else if n <= 19 then
      var bEnd := b.(pc := Finishing(Completed, V));
      if n == 17 then At(V, 93, 17, map[0 := a, 2 := bEnd, 4 := c0, 6 := d0], None)
      else if n == 18 then At(V, 93, 18, map[0 := a.(pc := Stored(0, false, V)), 2 := bEnd, 4 := c0, 6 := d0], None)
      else At(V, 93, 19, map[0 := aEnd, 2 := bEnd, 4 := c0, 6 := d0], None)
    else if n == 20 then At(DONE, 93, 20, map[0 := aEnd, 2 := bGone, 4 := c0, 6 := d0], end)
    else if n == 21 then At(DONE, 93, 21, map[0 := aEnd, 2 := bGone, 4 := c, 6 := d0], end)
    else if n == 22 then At(DONE, 93, 22, map[0 := aEnd, 2 := bGone, 4 := c, 6 := d], end)
    else if n == 23 then At(V, 93, 23, map[0 := aEnd, 2 := bGone, 4 := cPut, 6 := d], end)
    else if n == 24 then At(V, 124, 24, map[0 := aEnd, 2 := bGone, 4 := cPut, 6 := d], end)
    else if n == 25 then At(V, 124, 25, map[0 := aEnd, 2 := bGone, 4 := cPut, 6 := d, 7 := Reaper(V)], end)
    else if n == 26 then
      At(V, 124, 26, map[0 := aEnd, 2 := bGone, 4 := cPut, 6 := d, 7 := Reaper(V), 8 := Reaper(V)], end)
    else if n == 27 then At(taken, 124, 27, map[0 := aEnd, 2 := bGone, 4 := cPut, 6 := d, 8 := Reaper(V), 9 := w], end)
    else
      var aGone := a.(pc := Gone);
      if n == 28 then At(DONE, 124, 28, map[0 := aGone, 2 := bGone, 4 := cPut, 6 := d, 8 := Reaper(V), 9 := w], end)
      else if n == 29 then At(V, 124, 29, map[0 := aGone, 2 := bGone, 4 := cPut, 6 := dPut, 8 := Reaper(V), 9 :=
          w], end)
      else At(taken, 124, 30, map[0 := aGone, 2 := bGone, 4 := cPut, 6 := dPut, 9 := w, 10 := w], end)
  }

  function AgainStep(n: nat): Step
    requires n < 30
  {
    [Tick(31), ReapRead(1), ReapTakeOver(1, 2), Tick(31), ReapRead(3), ReapTakeOver(3, 4), Tick(31), ReapRead(5),
     ReapTakeOver(5, 6), WorkerStart(0), WorkerStart(2), WorkerStart(4), WorkerStart(6), WorkerRead(2),
     WorkerTas(2, 93, false), WorkerStored(2, true), WorkerRead(0), WorkerTas(0, 93, false), WorkerStored(0, true),
     WorkerFinish(2), WorkerRead(4), WorkerRead(6), WorkerTas(4, 93, false), Tick(31), ReapRead(7), ReapRead(8),
     ReapTakeOver(7, 9), WorkerFinish(0), WorkerTas(6, 93, false), ReapTakeOver(8, 10)][n]
  }

  ghost predicate AgainGoes(n: nat)
    requires n < 30
  {
    && Enabled(AgainState(n), AgainStep(n), false)
    && AgainState(n + 1) == Apply(AgainState(n), AgainStep(n))
  }

  lemma StartingTo4(n: nat)
    requires n < 4
    ensures Enabled(StartingState(n), AgainStep(n), false)
    ensures StartingState(n + 1) == Apply(StartingState(n), AgainStep(n))
  {
  }

  lemma StartingTo9(n: nat)
    requires 4 <= n < 9
    ensures Enabled(StartingState(n), AgainStep(n), false)
    ensures StartingState(n + 1) == Apply(StartingState(n), AgainStep(n))
  {
  }

  lemma StartingTo13(n: nat)
    requires 9 <= n < 13
    ensures Enabled(StartingState(n), AgainStep(n), false)
    ensures StartingState(n + 1) == Apply(StartingState(n), AgainStep(n))
  {
  }

  lemma AgainGoesTo13(n: nat)
    requires n < 13
    ensures AgainGoes(n)
  {
    hide Enabled, Apply;
    if n < 4 { StartingTo4(n); } else if n < 9 { StartingTo9(n); } else { StartingTo13(n); }
  }

  lemma AgainGoesTo16(n: nat)
    requires 13 <= n < 16
    ensures AgainGoes(n)
  {
  }

  lemma AgainGoesTo19(n: nat)
    requires 16 <= n < 19
    ensures AgainGoes(n)
  {
  }

  lemma AgainGoesTo25(n: nat)
    requires 19 <= n < 25
    ensures AgainGoes(n)
  {
  }

  lemma AgainGoesTo28(n: nat)
    requires 25 <= n < 28
    ensures AgainGoes(n)
  {
  }

  lemma AgainGoesTo30(n: nat)
    requires 28 <= n < 30
    ensures AgainGoes(n)
  {
  }

  lemma TakenOverAgain() returns (states: seq<State>, steps: seq<Step>)
    ensures Run(states, steps, false) && |steps| == 30
    ensures TakesOver(states, steps, 26, V) && TakesOver(states, steps, 29, V)
  {
    hide Enabled, Apply;
    states := seq(31, n requires 0 <= n < 31 => AgainState(n));
    steps := seq(30, n requires 0 <= n < 30 => AgainStep(n));
    forall n | 0 <= n < 30
      ensures Enabled(states[n], steps[n], false) && states[n + 1] == Apply(states[n], steps[n])
    {
      if n < 13 { AgainGoesTo13(n); }
      else if n < 16 { AgainGoesTo16(n); }
      else if n < 19 { AgainGoesTo19(n); }
      else if n < 25 { AgainGoesTo25(n); }
      else if n < 28 { AgainGoesTo28(n); }
      else { AgainGoesTo30(n); }
    }
  }

  // ---- An accepted abort that ends completed ----

  /** A state after the abort has been accepted. */
  function Signaled(rec: Record, clock: int, step: nat, actors: map<nat, Actor>, ended: Option<Status>,
                    open: bool): State {
    State(Some(rec), clock, step, actors, Some(2), ended, true, open)
  }

  /**
   * One worker at a time: it sees the accepted abort, fails its tasks and dies before its final
   * store. Its successor finds no task left to do and stores completed without looking for the signal.
   */
  function LostState(n: nat): State
    requires n <= 13
  {
    var w1 := Worker(Reading(0, false, TR), 0, None, false);
    var w4 := Worker(Writing(0, true, SIGNALED, SIGNALED), 0, Some(3), true);
    var failing, gone := w4.(pc := Finishing(Aborted, SIGNALED)), w4.(pc := Gone);
    var renewed := SIGNALED.(active := 31);
    var tr2 := Record(InProgress, 31, false, 7);
    var late := Worker(Finishing(Completed, tr2), 31, None, false);
    if n == 0 then At(R0, 0, 0, map[0 := FreshWorker(0)], None)
    else if n == 1 then At(R0, 0, 1, map[0 := w1], None)
    else if n == 2 then At(R0, 0, 2, map[0 := w1, 1 := AbortRequest(R0)], None)
    else if n == 3 then Signaled(SIGNALED, 0, 3, map[0 := w1], None, true)
    else if n == 4 then Signaled(SIGNALED, 0, 4, map[0 := w4], None, true)
    else if n == 5 then Signaled(SIGNALED, 0, 5, map[0 := w4.(pc := Stored(0, true, SIGNALED))], None, true)
    else if n == 6 then Signaled(SIGNALED, 0, 6, map[0 := failing], None, true)
    else if n == 7 then Signaled(SIGNALED, 0, 7, map[0 := failing], None, false)
    else if n == 8 then Signaled(SIGNALED, 0, 8, map[0 := gone], None, false)
    else if n == 9 then Signaled(SIGNALED, 31, 9, map[0 := gone], None, false)
    else if n == 10 then Signaled(SIGNALED, 31, 10, map[0 := gone, 1 := Reaper(SIGNALED)], None, false)
    else if n == 11 then Signaled(renewed, 31, 11, map[0 := gone, 2 := FreshWorker(31)], None, false)
    else if n == 12 then Signaled(renewed, 31, 12, map[0 := gone, 2 := late], None, false)
    else
      Signaled(Record(Completed, 31, true, 7), 31, 13, map[0 := gone, 2 := late.(pc := Gone)], Some(Completed), true)
  }

  function LostStep(n: nat): Step
    requires n < 13
  {
    [WorkerStart(0), AbortRead(1), AbortTas(1), WorkerRead(0), WorkerTas(0, 0, false), WorkerStored(0, false),
     WorkerSettle(0), WorkerCrash(0), Tick(31), ReapRead(1), ReapTakeOver(1, 2), WorkerStart(2), WorkerFinish(2)][n]
  }

  ghost predicate LostGoes(n: nat)
    requires n < 13
  {
    && Enabled(LostState(n), LostStep(n), true) && Enabled(LostState(n), LostStep(n), false)
    && LostState(n + 1) == Apply(LostState(n), LostStep(n))
  }

  lemma LostGoesTo4(n: nat)
    requires n < 4
    ensures LostGoes(n)
  {
  }

  lemma LostGoesTo9(n: nat)
    requires 4 <= n < 9
    ensures LostGoes(n)
  {
  }

  lemma LostGoesTo13(n: nat)
    requires 9 <= n < 13
    ensures LostGoes(n)
  {
  }

  lemma AcceptedAbortLostInCrash() returns (states: seq<State>, steps: seq<Step>, k: nat)
    ensures Run(states, steps, true) && k < |states|
    ensures 0 in states[k].actors
    ensures states[k].actors[0].Worker? && states[k].actors[0].saw && states[k].actors[0].pc.Finishing?
    ensures states[|steps|].ended == Some(Completed)
  {
    hide Enabled, Apply;
    states := seq(14, n requires 0 <= n < 14 => LostState(n));
    steps := seq(13, n requires 0 <= n < 13 => LostStep(n));
    k := 6;
    forall n | 0 <= n < 13
      ensures Enabled(states[n], steps[n], true) && Enabled(states[n], steps[n], false)
      ensures states[n + 1] == Apply(states[n], steps[n])
    {
      if n < 4 { LostGoesTo4(n); } else if n < 9 { LostGoesTo9(n); } else { LostGoesTo13(n); }
    }
  }
}
