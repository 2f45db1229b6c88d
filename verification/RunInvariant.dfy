/**
 * What holds of the components, the plan and the log of sent commands at every point of a
 * transition run. "next" is the first phase not yet entered; "pending" are the components of
 * the phase in progress that are still to be settled, "inflight" those already taken up.
 */
module RunInvariant {
  import opened PowerTypes
  import opened PowerSequence
  import opened Planner

  /**
   * Why a command is no longer waited for: its controller refused it, the power status record was gone, or time
   * ran out.
   */
  datatype Reason = Refused | NoRecord(poll: nat) | TimedOut

  /** Sent: a command went out. Confirmed: the wanted power state was seen. GaveUp: no longer waited for. */
  datatype Event =
    | Sent(phase: nat, x: Xname)
    | Confirmed(phase: nat, x: Xname)
    | GaveUp(phase: nat, x: Xname, why: Reason)

  type Log = seq<Event>

  predicate Alive(c: Component) {
    c.task.status != Failed
  }

  // ---- Plan and action counts ----

  ghost predicate PlanOK(top: Topology, op: Operation, names: set<Xname>, plan: Plan, next: nat, pending: set<Xname>) {
    && Filed(top, plan, names)
    && (forall a, t, x :: x in ListAt(plan, a, t) ==> a in Scheduled(op))
    && (forall x :: ShutdownAhead(top, plan, x, next, pending) ==> !Listed(top, plan, x, ForceOff))
  }

  predicate ShutdownAhead(top: Topology, plan: Plan, x: Xname, next: nat, pending: set<Xname>) {
    && Listed(top, plan, x, GracefulShutdown)
    && var k := PhaseOf(GracefulShutdown, top.typeOf(x));
    next <= k || (next == k + 1 && x in pending)
  }

  /** A live component's count is what is pending for it plus every plan entry still to come. */
  ghost predicate CountOK(top: Topology, c: Component, plan: Plan, x: Xname, next: nat, pending: set<Xname>) {
    && c.actionCount == One(x in pending) + Ahead(top, plan, x, next) + Uncovered(top, plan, x)
    && (Unfinished(c.task) <==> c.actionCount > 0)
  }

  ghost predicate CountsOK(top: Topology, comps: Components, plan: Plan, next: nat, pending: set<Xname>) {
    forall x :: x in comps && Alive(comps[x]) ==> CountOK(top, comps[x], plan, x, next, pending)
  }

  // ---- Confirmations ----

  ghost predicate Settled(top: Topology, plan: Plan, log: Log, x: Xname, a: Action) {
    || Confirmed(PhaseOf(a, top.typeOf(x)), x) in log
    || (a == GracefulShutdown && Listed(top, plan, x, ForceOff))
  }

  predicate Past(top: Topology, x: Xname, a: Action, next: nat, pending: set<Xname>) {
    var k := PhaseOf(a, top.typeOf(x));
    k < PHASES && k < next && (k + 1 < next || x !in pending)
  }

  /** Every plan entry behind the cursor was confirmed, a shutdown possibly by its force-off. */
  ghost predicate ConfirmedOK(top: Topology, comps: Components, plan: Plan, log: Log, next: nat, pending: set<Xname>) {
    forall x, a :: x in comps && Alive(comps[x]) && Listed(top, plan, x, a) && Past(top, x, a, next, pending) ==>
                     Settled(top, plan, log, x, a)
  }

  // ---- The order of commands ----

  predicate Closes(e: Event, s: Event) {
    s.Sent? && !e.Sent? && e.phase == s.phase && e.x == s.x
  }

  ghost predicate ClosedBefore(log: Log, p: nat, q: nat)
    requires p < q <= |log|
  {
    exists r :: p < r < q && Closes(log[r], log[p])
  }

  /** Commands go out in phase order, and a later phase starts only after the earlier ones are closed. */
  ghost predicate Ordered(log: Log) {
    forall p, q :: 0 <= p < q < |log| && log[p].Sent? && log[q].Sent? ==>
                     && log[p].phase <= log[q].phase
                     && (log[p].phase < log[q].phase ==> ClosedBefore(log, p, q))
  }

  ghost predicate LogOK(top: Topology, log: Log, next: nat, inflight: set<Xname>) {
    && Ordered(log)
    && forall p :: 0 <= p < |log| && log[p].Sent? ==>
                     && log[p].phase < next && log[p].phase < PHASES
                     && PhaseOf(PhaseAt(log[p].phase).action, top.typeOf(log[p].x)) == log[p].phase
                     && ((log[p].phase + 1 == next && log[p].x in inflight) || ClosedBefore(log, p, |log|))
  }

  // ---- Power kept by nodes that would not shut down ----

  ghost predicate SentNoOff(log: Log, x: Xname) {
    forall p :: 0 <= p < |log| && log[p].Sent? && log[p].x == x && log[p].phase < PHASES ==>
                  !IsOff(PhaseAt(log[p].phase).action)
  }

  /** A supply recorded On that this run has not switched off and never will. */
  ghost predicate Spared(comps: Components, log: Log, s: Supply) {
    && s.state == PoweredOn
    && SentNoOff(log, s.id)
    && (s.id in comps ==> !Alive(comps[s.id]))
  }

  predicate HasOnSupply(c: Component) {
    exists i :: 0 <= i < |c.supplies| && c.supplies[i].state == PoweredOn
  }

  ghost predicate KeepsPower(comps: Components, log: Log, n: Xname)
    requires n in comps
  {
    HasOnSupply(comps[n]) ==>
      exists i :: 0 <= i < |comps[n].supplies| && Spared(comps, log, comps[n].supplies[i])
  }

  ghost predicate PowerKept(comps: Components, log: Log, cut: set<Xname>) {
    forall n :: n in cut ==> n in comps && KeepsPower(comps, log, n)
  }

  /** Only components of the request are ever commanded. */
  ghost predicate Requested(comps: Components, log: Log) {
    forall p :: 0 <= p < |log| && log[p].Sent? ==> log[p].x in comps
  }

  ghost predicate SuppliesOK(top: Topology, comps: Components) {
    forall x, i :: x in comps && 0 <= i < |comps[x].supplies| ==>
                     top.typeOf(comps[x].supplies[i].id) == CabinetPDUPowerConnector
  }

  ghost predicate AllResumable(op: Operation, comps: Components) {
    forall x :: x in comps ==> Resumable(op, comps[x].task)
  }

  ghost predicate Taken(comps: Components, pending: set<Xname>, inflight: set<Xname>) {
    inflight <= pending && forall x :: x in inflight ==>
        x in comps && Alive(comps[x]) && comps[x].task.state != GatherData
  }

  /** The whole run invariant. */
  ghost predicate Inv(top: Topology, op: Operation, comps: Components, plan: Plan, log: Log, cut: set<Xname>,
                      next: nat, pending: set<Xname>, inflight: set<Xname>)
  {
    && top.Valid() && SuppliesOK(top, comps) && AllResumable(op, comps)
    && PlanOK(top, op, comps.Keys, plan, next, pending)
    && CountsOK(top, comps, plan, next, pending)
    && ConfirmedOK(top, comps, plan, log, next, pending)
    && LogOK(top, log, next, inflight)
    && Requested(comps, log)
    && PowerKept(comps, log, cut)
    && Taken(comps, pending, inflight)
  }

  // ---- What the steps keep ----

  /** From components c to d: same names and hardware data, and a failed task stays failed. */
  ghost predicate Evolves(c: Components, d: Components) {
    && c.Keys == d.Keys
    && forall x :: x in c ==> d[x].supplies == c[x].supplies && (!Alive(c[x]) ==> !Alive(d[x]))
  }

  lemma PowerKeptStep(c: Components, d: Components, log: Log, log': Log, cut: set<Xname>)
    requires PowerKept(c, log, cut)
    requires Evolves(c, d)
    requires log' == log || (exists e :: log' == log + [e] && (e.Sent? ==> e.x in c && Alive(c[e.x])))
    ensures PowerKept(d, log', cut)
  {
    forall n | n in cut ensures n in d && KeepsPower(d, log', n) {
      if HasOnSupply(d[n]) {
        assert HasOnSupply(c[n]);
        var i :| 0 <= i < |c[n].supplies| && Spared(c, log, c[n].supplies[i]);
        assert Spared(d, log', d[n].supplies[i]);
      }
    }
  }

  /** Appending to the log keeps the order when a sent command belongs to the current phase. */
  lemma LogOKStep(top: Topology, log: Log, e: Event, next: nat, inflight: set<Xname>, inflight': set<Xname>)
    requires LogOK(top, log, next, inflight)
    requires e.Sent? ==> e.phase + 1 == next && e.phase < PHASES && e.x in inflight' && inflight <= inflight' &&
                         PhaseOf(PhaseAt(e.phase).action, top.typeOf(e.x)) == e.phase
    requires !e.Sent? ==> inflight - {e.x} <= inflight' && (e.x in inflight' || e.phase + 1 == next)
    ensures LogOK(top, log + [e], next, inflight')
  {
    var log' := log + [e];
    OrderedStep(top, log, e, next, inflight);
    forall p | 0 <= p < |log'| && log'[p].Sent?
      ensures (log'[p].phase + 1 == next && log'[p].x in inflight') || ClosedBefore(log', p, |log'|)
    {
      if p < |log| && ClosedBefore(log, p, |log|) {
        ClosedLater(log, e, p, |log|);
      } else if p < |log| && !e.Sent? && log[p].x == e.x && log[p].x !in inflight' {
        assert Closes(log'[|log|], log'[p]);
      }
    }
  }

  lemma ClosedLater(log: Log, e: Event, p: nat, q: nat)
    requires p < q <= |log| && ClosedBefore(log, p, q)
    ensures ClosedBefore(log + [e], p, q) && ClosedBefore(log + [e], p, |log| + 1)
  {
    var r :| p < r < q && Closes(log[r], log[p]);
    assert Closes((log + [e])[r], (log + [e])[p]);
  }

  lemma OrderedStep(top: Topology, log: Log, e: Event, next: nat, inflight: set<Xname>)
    requires LogOK(top, log, next, inflight)
    requires e.Sent? ==> e.phase + 1 == next
    ensures Ordered(log + [e])
  {
    var log' := log + [e];
    forall p, q | 0 <= p < q < |log'| && log'[p].Sent? && log'[q].Sent?
      ensures log'[p].phase <= log'[q].phase && (log'[p].phase < log'[q].phase ==> ClosedBefore(log', p, q))
    {
      if log'[p].phase < log'[q].phase { ClosedLater(log, e, p, q); }
    }
  }

  /** Entering phase k: its component list becomes pending. */
  lemma EnterPhase(top: Topology, op: Operation, comps: Components, plan: Plan, log: Log, cut: set<Xname>, k: nat)
    requires k < PHASES
    requires Inv(top, op, comps, plan, log, cut, k, {}, {})
    ensures Inv(top, op, comps, plan, log, cut, k + 1, set x | x in PhaseList(plan, k), {})
    ensures NoDuplicates(PhaseList(plan, k))
    ensures forall x :: x in PhaseList(plan, k) ==> x in comps && PhaseOf(PhaseAt(k).action, top.typeOf(x)) == k
    ensures forall x :: x in PhaseList(plan, k) ==> Listed(top, plan, x, PhaseAt(k).action)
  {
    var list := PhaseList(plan, k);
    var pending := set x | x in list;
    PhaseListMembers(top, plan, comps.Keys, k);
    forall x | x in comps && Alive(comps[x]) ensures CountOK(top, comps[x], plan, x, k + 1, pending) {
      assert CountOK(top, comps[x], plan, x, k, {});
      AheadStep(top, plan, comps.Keys, x, k);
    }
    forall x, a | x in comps && Alive(comps[x]) && Listed(top, plan, x, a) && Past(top, x, a, k + 1, pending)
      ensures Settled(top, plan, log, x, a)
    {
      PhaseOfIsUnique(k, a, top.typeOf(x));
      assert Past(top, x, a, k, {});
    }
    forall x | ShutdownAhead(top, plan, x, k + 1, pending) ensures !Listed(top, plan, x, ForceOff) {
      assert ShutdownAhead(top, plan, x, k, {});
    }
  }

  /** A component that has failed can be dropped from what is pending. */
  lemma DropFailed(top: Topology, op: Operation, comps: Components, plan: Plan, log: Log, cut: set<Xname>,
                   next: nat, pending: set<Xname>, inflight: set<Xname>, x: Xname)
    requires Inv(top, op, comps, plan, log, cut, next, pending, inflight)
    requires x in comps && !Alive(comps[x])
    ensures Inv(top, op, comps, plan, log, cut, next, pending - {x}, inflight)
  {
    var pending' := pending - {x};
    forall y | y in comps && Alive(comps[y]) ensures CountOK(top, comps[y], plan, y, next, pending') {
      assert CountOK(top, comps[y], plan, y, next, pending);
    }
    forall y, a | y in comps && Alive(comps[y]) && Listed(top, plan, y, a) && Past(top, y, a, next, pending')
      ensures Settled(top, plan, log, y, a)
    {
      assert Past(top, y, a, next, pending);
    }
    forall y | ShutdownAhead(top, plan, y, next, pending') ensures !Listed(top, plan, y, ForceOff) {
      assert ShutdownAhead(top, plan, y, next, pending);
    }
  }

  /** Tasks may be failed at any time, as long as no component in flight is. */
  lemma FailStep(top: Topology, op: Operation, c: Components, d: Components, plan: Plan, log: Log, cut: set<Xname>,
                 next: nat, pending: set<Xname>, inflight: set<Xname>)
    requires Inv(top, op, c, plan, log, cut, next, pending, inflight)
    requires c.Keys == d.Keys
    requires forall x :: x in c ==> d[x] == c[x] || d[x] == c[x].(task := c[x].task.(status := Failed))
    requires forall x :: x in inflight ==> Alive(d[x])
    ensures Inv(top, op, d, plan, log, cut, next, pending, inflight)
  {
    PowerKeptStep(c, d, log, log, cut);
    forall x | x in d && Alive(d[x]) ensures CountOK(top, d[x], plan, x, next, pending) {
      assert d[x] == c[x];
    }
    forall x, a | x in d && Alive(d[x]) && Listed(top, plan, x, a) && Past(top, x, a, next, pending)
      ensures Settled(top, plan, log, x, a)
    {
      assert d[x] == c[x];
    }
    forall x | x in d ensures Resumable(op, d[x].task) {
      assert Resumable(op, c[x].task);
    }
  }

  /** Closing an event for x that leaves it out of the flight: failed, or waiting for a force-off. */
  lemma CloseStep(top: Topology, op: Operation, comps: Components, plan: Plan, log: Log, cut: set<Xname>,
                  next: nat, pending: set<Xname>, inflight: set<Xname>, e: Event)
    requires Inv(top, op, comps, plan, log, cut, next, pending, inflight)
    requires !e.Sent? && e.phase + 1 == next
    ensures Inv(top, op, comps, plan, log + [e], cut, next, pending, inflight - {e.x})
  {
    LogOKStep(top, log, e, next, inflight, inflight - {e.x});
    PowerKeptStep(comps, comps, log, log + [e], cut);
    forall y, a | y in comps && Alive(comps[y]) && Listed(top, plan, y, a) && Past(top, y, a, next, pending)
      ensures Settled(top, plan, log + [e], y, a)
    {
      assert Settled(top, plan, log, y, a);
    }
  }

  /** The component record once the command for action a is made up. */
  function AfterSend(c: Component, a: Action): Component {
    c.(task := c.task.(state := Sending, operation := OperationOf(a)))
  }

  /** Sending a command to a pending component. */
  lemma SendStep(top: Topology, op: Operation, c: Components, plan: Plan, log: Log, cut: set<Xname>,
                 k: nat, pending: set<Xname>, inflight: set<Xname>, x: Xname, a: Action)
    requires k < PHASES && a == PhaseAt(k).action
    requires Inv(top, op, c, plan, log, cut, k + 1, pending, inflight)
    requires x in c && Alive(c[x]) && x in pending
    requires PhaseOf(a, top.typeOf(x)) == k && a in Scheduled(op)
    ensures Inv(top, op, c[x := AfterSend(c[x], a)], plan, log + [Sent(k, x)], cut, k + 1, pending, inflight + {x})
  {
    hide PlanOK, CountsOK, ConfirmedOK, PowerKept, LogOK;
    var d := c[x := AfterSend(c[x], a)];
    var e := Sent(k, x);
    assert d.Keys == c.Keys;
    assert LogOK(top, log + [e], k + 1, inflight + {x}) by {
      LogOKStep(top, log, e, k + 1, inflight, inflight + {x});
    }
    assert PowerKept(d, log + [e], cut) by { PowerKeptStep(c, d, log, log + [e], cut); }
    TaskStep(top, op, c, d, plan, log, log + [e], k + 1, pending, x);
  }

  /** A task found waiting for this very action is taken up again without sending the command twice. */
  lemma ResumeStep(top: Topology, op: Operation, comps: Components, plan: Plan, log: Log, cut: set<Xname>,
                   next: nat, pending: set<Xname>, inflight: set<Xname>, x: Xname)
    requires Inv(top, op, comps, plan, log, cut, next, pending, inflight)
    requires x in comps && x in pending && Alive(comps[x]) && comps[x].task.state != GatherData
    ensures Inv(top, op, comps, plan, log, cut, next, pending, inflight + {x})
  {
  }

  /** The component record once its controller has accepted the command. */
  function AfterReply(c: Component): Component {
    c.(task := c.task.(state := Waiting, status := InProgress))
  }

  lemma ReplyStep(top: Topology, op: Operation, c: Components, plan: Plan, log: Log, cut: set<Xname>,
                  next: nat, pending: set<Xname>, inflight: set<Xname>, x: Xname)
    requires Inv(top, op, c, plan, log, cut, next, pending, inflight)
    requires x in inflight
    ensures Inv(top, op, c[x := AfterReply(c[x])], plan, log, cut, next, pending, inflight)
  {
    hide PlanOK, ConfirmedOK, LogOK, PowerKept, Ahead, Uncovered;
    var d := c[x := AfterReply(c[x])];
    assert d.Keys == c.Keys;
    assert CountOK(top, c[x], plan, x, next, pending);
    PowerKeptStep(c, d, log, log, cut);
    TaskStep(top, op, c, d, plan, log, log, next, pending, x);
  }

  /** An update of one live task that keeps its finished-or-not and its count. */
  lemma TaskStep(top: Topology, op: Operation, c: Components, d: Components, plan: Plan, log: Log, log': Log,
                 next: nat, pending: set<Xname>, x: Xname)
    requires AllResumable(op, c) && SuppliesOK(top, c) && Requested(c, log)
    requires PlanOK(top, op, c.Keys, plan, next, pending)
    requires CountsOK(top, c, plan, next, pending)
    requires ConfirmedOK(top, c, plan, log, next, pending)
    requires x in c && Alive(c[x]) && x in d && d == c[x := d[x]]
    requires d[x].actionCount == c[x].actionCount && d[x].supplies == c[x].supplies
    requires Alive(d[x]) && (Unfinished(d[x].task) <==> Unfinished(c[x].task))
    requires Resumable(op, d[x].task)
    requires log <= log'
    ensures AllResumable(op, d) && SuppliesOK(top, d)
    ensures PlanOK(top, op, d.Keys, plan, next, pending)
    ensures CountsOK(top, d, plan, next, pending)
    ensures ConfirmedOK(top, d, plan, log', next, pending)
  {
    assert d.Keys == c.Keys;
    forall y | y in d && Alive(d[y]) ensures CountOK(top, d[y], plan, y, next, pending) {
      assert CountOK(top, c[y], plan, y, next, pending);
    }
    forall y, a | y in d && Alive(d[y]) && Listed(top, plan, y, a) && Past(top, y, a, next, pending)
      ensures Settled(top, plan, log', y, a)
    {
      assert Settled(top, plan, log, y, a);
    }
  }

  /** Removing x from pending, and a plan that gained at most x's force-off, keep the other plan clauses. */
  lemma SettledStep(top: Topology, comps: Components, comps': Components, plan: Plan, plan': Plan, log: Log, e: Event,
                    k: nat, pending: set<Xname>, x: Xname, a: Action)
    requires k < PHASES && a == PhaseAt(k).action && !e.Sent?
    requires ConfirmedOK(top, comps, plan, log, k + 1, pending)
    requires comps.Keys == comps'.Keys
    requires forall y :: y in comps' && Alive(comps'[y]) ==> Alive(comps[y])
    requires forall y, a :: Listed(top, plan', y, a) ==> Listed(top, plan, y, a) || PhaseOf(a, top.typeOf(y)) > k
    requires forall y, a :: Listed(top, plan, y, a) ==> Listed(top, plan', y, a)
    requires e == Confirmed(k, x) || Listed(top, plan', x, ForceOff)
    requires PhaseOf(a, top.typeOf(x)) == k
    requires e != Confirmed(k, x) ==> a == GracefulShutdown
    ensures ConfirmedOK(top, comps', plan', log + [e], k + 1, pending - {x})
  {
    var log' := log + [e];
    forall y, b | y in comps' && Alive(comps'[y]) && Listed(top, plan', y, b) && Past(top, y, b, k + 1, pending - {x})
      ensures Settled(top, plan', log', y, b)
    {
      if Past(top, y, b, k + 1, pending) {
        assert Settled(top, plan, log, y, b);
      } else {
        assert y == x;
        PhaseOfIsUnique(k, b, top.typeOf(x));
        assert log'[|log|] == e;
      }
    }
  }

  lemma ConfirmCounts(top: Topology, c: Components, d: Components, plan: Plan, next: nat, pending: set<Xname>, x: Xname)
    requires CountsOK(top, c, plan, next, pending)
    requires x in c && x in pending && Alive(c[x]) && x in d && d == c[x := d[x]]
    requires d[x].actionCount == c[x].actionCount - 1
    requires d[x].task.status == if d[x].actionCount == 0 then Succeeded else c[x].task.status
    ensures CountsOK(top, d, plan, next, pending - {x})
  {
    forall y | y in d && Alive(d[y]) ensures CountOK(top, d[y], plan, y, next, pending - {x}) {
      assert CountOK(top, c[y], plan, y, next, pending);
    }
  }

  lemma PlanOKShrinks(top: Topology, op: Operation, comps: Components, plan: Plan, next: nat, pending: set<Xname>,
                      x: Xname)
    requires PlanOK(top, op, comps.Keys, plan, next, pending)
    ensures PlanOK(top, op, comps.Keys, plan, next, pending - {x})
  {
    forall y | ShutdownAhead(top, plan, y, next, pending - {x}) ensures !Listed(top, plan, y, ForceOff) {
      assert ShutdownAhead(top, plan, y, next, pending);
    }
  }

  /** The component record after its power state was confirmed. */
  function AfterConfirm(c: Component): Component {
    var n := c.actionCount - 1;
    var status := if n == 0 then Succeeded else c.task.status;
    c.(actionCount := n, task := c.task.(state := Confirming, status := status))
  }

  /** The power state of x was confirmed: one action less to go. */
  lemma ConfirmStep(top: Topology, op: Operation, c: Components, plan: Plan, log: Log, cut: set<Xname>,
                    k: nat, pending: set<Xname>, inflight: set<Xname>, x: Xname, a: Action)
    requires k < PHASES && a == PhaseAt(k).action
    requires Inv(top, op, c, plan, log, cut, k + 1, pending, inflight)
    requires x in inflight && PhaseOf(a, top.typeOf(x)) == k
    ensures Inv(top, op, c[x := AfterConfirm(c[x])], plan, log + [Confirmed(k, x)], cut,
                k + 1, pending - {x}, inflight - {x})
  {
    hide PlanOK, CountsOK, ConfirmedOK, PowerKept, LogOK;
    var d := c[x := AfterConfirm(c[x])];
    var e := Confirmed(k, x);
    var pending' := pending - {x};
    assert d.Keys == c.Keys;
    assert LogOK(top, log + [e], k + 1, inflight - {x}) by {
      LogOKStep(top, log, e, k + 1, inflight, inflight - {x});
    }
    assert PowerKept(d, log + [e], cut) by { PowerKeptStep(c, d, log, log + [e], cut); }
    assert CountsOK(top, d, plan, k + 1, pending') by { ConfirmCounts(top, c, d, plan, k + 1, pending, x); }
    assert ConfirmedOK(top, d, plan, log + [e], k + 1, pending') by {
      SettledStep(top, c, d, plan, plan, log, e, k, pending, x, a);
    }
    assert PlanOK(top, op, d.Keys, plan, k + 1, pending') by { PlanOKShrinks(top, op, c, plan, k + 1, pending, x); }
    TaskKept(top, op, c, d, log, e, x);
  }

  /** Updating one record without touching its operation or supplies keeps the per-record clauses. */
  lemma TaskKept(top: Topology, op: Operation, c: Components, d: Components, log: Log, e: Event, x: Xname)
    requires SuppliesOK(top, c) && AllResumable(op, c) && Requested(c, log)
    requires x in c && x in d && d == c[x := d[x]] && !e.Sent?
    requires d[x].supplies == c[x].supplies && d[x].task.operation == c[x].task.operation
    requires c[x].task.state != GatherData && d[x].task.state != GatherData
    ensures SuppliesOK(top, d) && AllResumable(op, d) && Requested(d, log + [e])
  {
  }

  /** Adding one entry to a list that did not hold it keeps the plan filed. */
  lemma FiledAppend(top: Topology, plan: Plan, names: set<Xname>, a: Action, x: Xname)
    requires Filed(top, plan, names) && x in names && !Listed(top, plan, x, a)
    ensures Filed(top, Append(plan, a, top.typeOf(x), x), names)
    ensures forall y, b :: Listed(top, Append(plan, a, top.typeOf(x), x), y, b) <==>
                           Listed(top, plan, y, b) || (y == x && b == a)
  {
    var t := top.typeOf(x);
    var plan' := Append(plan, a, t, x);
    forall b, u
      ensures NoDuplicates(ListAt(plan', b, u))
      ensures forall y :: y in ListAt(plan', b, u) ==> top.typeOf(y) == u && y in names
    {
      assert NoDuplicates(ListAt(plan, b, u));
      assert forall y :: y in ListAt(plan, b, u) ==> top.typeOf(y) == u && y in names;
    }
  }

  lemma ForceOffCounts(top: Topology, comps: Components, plan: Plan, plan': Plan, next: nat, pending: set<Xname>,
                       x: Xname)
    requires CountsOK(top, comps, plan, next, pending)
    requires x in pending && !Listed(top, plan, x, ForceOff)
    requires next <= PhaseOf(ForceOff, top.typeOf(x)) < PHASES
    requires forall y, b :: Listed(top, plan', y, b) <==> Listed(top, plan, y, b) || (y == x && b == ForceOff)
    ensures CountsOK(top, comps, plan', next, pending - {x})
  {
    forall y | y in comps && Alive(comps[y]) ensures CountOK(top, comps[y], plan', y, next, pending - {x}) {
      assert CountOK(top, comps[y], plan, y, next, pending);
      AheadAppend(top, plan, plan', y, next, y == x);
    }
  }

  lemma AheadAppend(top: Topology, plan: Plan, plan': Plan, y: Xname, next: nat, gained: bool)
    requires forall b :: b != ForceOff ==> Listed(top, plan', y, b) == Listed(top, plan, y, b)
    requires Listed(top, plan', y, ForceOff) == (Listed(top, plan, y, ForceOff) || gained)
    requires gained ==> !Listed(top, plan, y, ForceOff) && next <= PhaseOf(ForceOff, top.typeOf(y)) < PHASES
    ensures Ahead(top, plan', y, next) == Ahead(top, plan, y, next) + One(gained)
    ensures Uncovered(top, plan', y) == Uncovered(top, plan, y)
  {
  }

  /** A graceful shutdown timed out: its force-off joins the plan, ahead of the cursor. */
  lemma ForceOffStep(top: Topology, op: Operation, comps: Components, plan: Plan, log: Log, cut: set<Xname>,
                     k: nat, pending: set<Xname>, inflight: set<Xname>, x: Xname)
    requires k < PHASES && PhaseAt(k).action == GracefulShutdown
    requires Inv(top, op, comps, plan, log, cut, k + 1, pending, inflight)
    requires x in inflight && PhaseOf(GracefulShutdown, top.typeOf(x)) == k
    requires Listed(top, plan, x, GracefulShutdown)
    requires ForceOff in Scheduled(op)
    ensures PhaseOf(ForceOff, top.typeOf(x)) == k + 1 < PHASES
    ensures Inv(top, op, comps, Append(plan, ForceOff, top.typeOf(x), x), log + [GaveUp(k, x, TimedOut)], cut,
                k + 1, pending - {x}, inflight - {x})
  {
    hide CountsOK, ConfirmedOK, LogOK, PowerKept, SuppliesOK, AllResumable, PhaseAt, Ahead, Uncovered;
    var t := top.typeOf(x);
    var plan' := Append(plan, ForceOff, t, x);
    var e := GaveUp(k, x, TimedOut);
    assert Level(t) > 0;
    assert ShutdownAhead(top, plan, x, k + 1, pending);
    FiledAppend(top, plan, comps.Keys, ForceOff, x);
    LogOKStep(top, log, e, k + 1, inflight, inflight - {x});
    PowerKeptStep(comps, comps, log, log + [e], cut);
    ForceOffCounts(top, comps, plan, plan', k + 1, pending, x);
    SettledStep(top, comps, comps, plan, plan', log, e, k, pending, x, GracefulShutdown);
    ForceOffPlan(top, op, comps, plan, k, pending, x);
  }

  lemma ForceOffPlan(top: Topology, op: Operation, comps: Components, plan: Plan, k: nat, pending: set<Xname>, x: Xname)
    requires k < PHASES && PlanOK(top, op, comps.Keys, plan, k + 1, pending)
    requires x in comps && !Listed(top, plan, x, ForceOff)
    requires PhaseOf(GracefulShutdown, top.typeOf(x)) == k && ForceOff in Scheduled(op)
    ensures PlanOK(top, op, comps.Keys, Append(plan, ForceOff, top.typeOf(x), x), k + 1, pending - {x})
  {
    hide Append, PhaseOf, NoDuplicates, Scheduled;
    var plan' := Append(plan, ForceOff, top.typeOf(x), x);
    FiledAppend(top, plan, comps.Keys, ForceOff, x);
    forall y | ShutdownAhead(top, plan', y, k + 1, pending - {x}) ensures !Listed(top, plan', y, ForceOff) {
      assert ShutdownAhead(top, plan, y, k + 1, pending);
    }
    forall a, t, y | y in ListAt(plan', a, t) ensures a in Scheduled(op) {
      assert Listed(top, plan', y, a);
    }
  }

  // ---- What the invariant means at phase boundaries and at the end of a run ----

  /**
   * Between two phases, the count of a live component is the number of times it occurs in the
   * component lists of the phases still ahead, plus its entries no phase visits.
   */
  lemma CountAtBoundary(top: Topology, op: Operation, comps: Components, plan: Plan, log: Log, cut: set<Xname>,
                        k: nat, x: Xname)
    requires k <= PHASES && Inv(top, op, comps, plan, log, cut, k, {}, {})
    requires x in comps && Alive(comps[x])
    ensures comps[x].actionCount == Occurrences(plan, x, k) + Uncovered(top, plan, x)
    ensures Unfinished(comps[x].task) <==> comps[x].actionCount > 0
  {
    hide ConfirmedOK, LogOK, PowerKept, Requested, SuppliesOK, AllResumable, Ahead, Uncovered, Occurrences, Filed;
    assert CountOK(top, comps[x], plan, x, k, {});
    AheadIsOccurrences(top, plan, comps.Keys, x, k);
  }

  /** Every action the plan holds for x was confirmed, a shutdown possibly by its force-off. */
  ghost predicate EveryActionConfirmed(top: Topology, plan: Plan, log: Log, x: Xname) {
    forall a :: Listed(top, plan, x, a) ==>
                  || Confirmed(PhaseOf(a, top.typeOf(x)), x) in log
                  || (a == GracefulShutdown && Listed(top, plan, x, ForceOff) &&
                      Confirmed(PhaseOf(ForceOff, top.typeOf(x)), x) in log)
  }

  /** At the end a live task is unfinished exactly when its plan has an entry no phase visits. */
  lemma EndOfRun(top: Topology, op: Operation, comps: Components, plan: Plan, log: Log, cut: set<Xname>, x: Xname)
    requires Inv(top, op, comps, plan, log, cut, PHASES, {}, {})
    requires x in comps
    ensures Alive(comps[x]) ==> (Unfinished(comps[x].task) <==> Uncovered(top, plan, x) > 0)
    ensures Alive(comps[x]) && Uncovered(top, plan, x) == 0 ==> EveryActionConfirmed(top, plan, log, x)
    ensures Listed(top, plan, x, ForceOff) ==> op != OpSoftOff
  {
    if Alive(comps[x]) {
      assert CountOK(top, comps[x], plan, x, PHASES, {});
      if Uncovered(top, plan, x) == 0 {
        forall a | Listed(top, plan, x, a)
          ensures Confirmed(PhaseOf(a, top.typeOf(x)), x) in log ||
                  (a == GracefulShutdown && Listed(top, plan, x, ForceOff)
                      && Confirmed(PhaseOf(ForceOff, top.typeOf(x)), x) in log)
        {
          assert a in Scheduled(op);
          assert UncoveredIn(top, plan, x, a) == 0;
          assert Past(top, x, a, PHASES, {});
          assert Settled(top, plan, log, x, a);
          if Listed(top, plan, x, ForceOff) {
            assert UncoveredIn(top, plan, x, ForceOff) == 0;
            assert Past(top, x, ForceOff, PHASES, {});
            assert Settled(top, plan, log, x, ForceOff);
          }
        }
      }
    }
  }

  /** Offs go out from the leaves up: a child's off is closed before an off to a higher level is sent. */
  lemma OffsBottomUp(top: Topology, log: Log, next: nat, inflight: set<Xname>, p: nat, q: nat)
    requires LogOK(top, log, next, inflight)
    requires p < |log| && q < |log| && log[p].Sent? && log[q].Sent?
    requires IsOff(PhaseAt(log[p].phase).action) && IsOff(PhaseAt(log[q].phase).action)
    requires Level(top.typeOf(log[p].x)) < Level(top.typeOf(log[q].x))
    ensures p < q && ClosedBefore(log, p, q)
  {
  }

  /** Ons go out from the supplies down: a parent's on is closed before an on to a lower level is sent. */
  lemma OnsTopDown(top: Topology, log: Log, next: nat, inflight: set<Xname>, p: nat, q: nat)
    requires LogOK(top, log, next, inflight)
    requires p < |log| && q < |log| && log[p].Sent? && log[q].Sent?
    requires PhaseAt(log[p].phase).action == On && PhaseAt(log[q].phase).action == On
    requires Level(top.typeOf(log[p].x)) > Level(top.typeOf(log[q].x))
    ensures p < q && ClosedBefore(log, p, q)
  {
  }
}
