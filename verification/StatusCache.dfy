/**
 * The power status monitor's in-memory map of components and the stored power status records it
 * keeps in step with it.
 */
module StatusCache {
  import opened Wrappers
  import opened PowerTypes
  import opened Capabilities

  datatype ManagementState = Available | Unavailable | MgmtUndefined

  /** The status of a component, cached or stored. */
  datatype Status = Status(
    power: PowerState,
    management: ManagementState,
    error: string,
    supported: set<Operation>,
    lastUpdated: int)

  /** A component as the hardware inventory reports it. */
  datatype Reported = Reported(hmsType: HMSType, empty: bool, resets: seq<Action>)

  type StatusMap = map<Xname, Status>

  datatype State = State(cache: StatusMap, store: StatusMap)

  predicate Handled(r: Reported) {
    !r.empty && r.hmsType != OtherType && r.hmsType != HMSTypeInvalid
  }

  const OPERATIONS := {OpNil, OpOn, OpOff, OpSoftRestart, OpHardRestart, OpInit, OpForceOff, OpSoftOff}

  function SupportedBy(resets: seq<Action>): set<Operation> {
    set op | op in OPERATIONS && Advertised((set a | a in resets), op)
  }

  // What the two operations do -------------------------------------------------------------------

  /** A cached entry after a refresh: its transitions are renewed, its state is not. */
  function Renewed(cache: StatusMap, x: Xname, r: Reported, now: int): Status {
    if x in cache then cache[x].(supported := SupportedBy(r.resets))
    else Status(Undefined, Unavailable, "", SupportedBy(r.resets), now)
  }

  /** The cache after the components of some names have been looked at; the others keep their entry. */
  ghost predicate LookedAt(before: StatusMap, hsm: map<Xname, Reported>, seen: set<Xname>, now: int, after: StatusMap) {
    && (forall x :: x in after <==> x in before || (x in seen && x in hsm && Handled(hsm[x])))
    && (forall x :: x in after ==>
          if x in seen && x in hsm && Handled(hsm[x]) then after[x] == Renewed(before, x, hsm[x], now)
          else x in before && after[x] == before[x])
  }

  function Restrict(m: StatusMap, keys: set<Xname>): StatusMap {
    map x | x in m && x in keys :: m[x]
  }

  ghost predicate RefreshedTo(s: State, hsm: map<Xname, Reported>, now: int, s': State) {
    if hsm == map[] then s' == s
    else LookedAt(Restrict(s.cache, hsm.Keys), hsm, hsm.Keys, now, s'.cache)
         && s'.store == map x | x in s.store && (x in s.cache ==> x in hsm) :: s.store[x]
  }

  function Updated(s: State, x: Xname, power: PowerState, management: ManagementState, error: string, now: int): State {
    if x !in s.cache || (s.cache[x].power == power && s.cache[x].management == management) then s
    else
      var status := s.cache[x].(power := power, management := management, error := error, lastUpdated := now);
      State(s.cache[x := status], s.store[x := status])
  }

  class Monitor {
    var cache: StatusMap
    var store: StatusMap

    constructor ()
      ensures cache == map[] && store == map[]
    {
      cache, store := map[], map[];
    }

    /** Drops every entry the inventory no longer lists, together with its record. */
    method DropVanished(hsm: map<Xname, Reported>)
      modifies this
      ensures cache == Restrict(old(cache), hsm.Keys)
      ensures store == map x | x in old(store) && (x in old(cache) ==> x in hsm) :: old(store)[x]
    {
      var rest := cache.Keys;
      while rest != {}
        invariant rest <= old(cache).Keys
        invariant cache == map x | x in old(cache) && (x in rest || x in hsm) :: old(cache)[x]
        invariant store == map x | x in old(store) && (x in old(cache) && x !in rest ==> x in hsm) :: old(store)[x]
        decreases rest
      {
        var k :| k in rest;
        rest := rest - {k};
        if k !in hsm {
          cache := map x | x in cache && x != k :: cache[x];
          store := map x | x in store && x != k :: store[x];
        }
      }
    }

    /** Refreshes the map from the inventory, in any order; an empty inventory is an error and changes nothing. */
    method UpdateComponentMap(hsm: map<Xname, Reported>, now: int) returns (ok: bool)
      modifies this
      ensures ok <==> hsm != map[]
      ensures RefreshedTo(State(old(cache), old(store)), hsm, now, State(cache, store))
    {
      if |hsm| == 0 {
        return false;
      }
      DropVanished(hsm);
      ghost var kept := cache;
      var rest := hsm.Keys;
      while rest != {}
        invariant rest <= hsm.Keys
        invariant store == map x | x in old(store) && (x in old(cache) ==> x in hsm) :: old(store)[x]
        invariant LookedAt(kept, hsm, hsm.Keys - rest, now, cache)
        decreases rest
      {
        var x :| x in rest;
        rest := rest - {x};
        if Handled(hsm[x]) {
          var ops := ToPowerActions(hsm[x].resets);
          var supported := set o | o in ops;
          assert supported == SupportedBy(hsm[x].resets) by {
            AllOperations();
          }
          if x in cache {
            cache := cache[x := cache[x].(supported := supported)];
          } else {
            cache := cache[x := Status(Undefined, Unavailable, "", supported, now)];
          }
        }
      }
      assert hsm.Keys - rest == hsm.Keys;
      ok := true;
    }

    /** Records a changed state in the map and in the store. */
    method UpdateHWState(x: Xname, power: PowerState, management: ManagementState, error: string, now: int)
      modifies this
      ensures State(cache, store) == Updated(State(old(cache), old(store)), x, power, management, error, now)
      ensures cache.Keys == old(cache).Keys
      ensures x in cache ==> cache[x].power == power && cache[x].management == management
      ensures x in cache && cache[x] != old(cache)[x] ==>
                && x in store && store[x] == cache[x]
                && cache[x] == Status(power, management, error, old(cache)[x].supported, now)
      ensures forall y :: y in cache && y != x ==> cache[y] == old(cache)[y]
      ensures forall y :: y != x ==> (y in store <==> y in old(store)) && (y in store ==> store[y] == old(store)[y])
    {
      if x !in cache {
        return;
      }
      var comp := cache[x];
      if power == comp.power && management == comp.management {
        return;
      }
      comp := comp.(power := power, management := management, lastUpdated := now, error := error);
      cache := cache[x := comp];
      store := store[x := Status(power, management, error, comp.supported, comp.lastUpdated)];
    }
  }

  lemma AllOperations()
    ensures forall op: Operation :: op in OPERATIONS
  {
    forall op: Operation ensures op in OPERATIONS {
      match op
      case OpNil =>
      case OpOn =>
      case OpOff =>
      case OpSoftRestart =>
      case OpHardRestart =>
      case OpInit =>
      case OpForceOff =>
      case OpSoftOff =>
    }
  }

  // Over every run ---------------------------------------------------------------------------------

  datatype Event =
    | Refresh(hsm: map<Xname, Reported>, now: int)
    | Update(x: Xname, power: PowerState, management: ManagementState, error: string, now: int)

  ghost predicate Step(s: State, e: Event, s': State) {
    match e
    case Refresh(hsm, now) => RefreshedTo(s, hsm, now, s')
    case Update(x, power, management, error, now) => s' == Updated(s, x, power, management, error, now)
  }

  ghost predicate Run(states: seq<State>, events: seq<Event>) {
    && |states| == |events| + 1
    && states[0] == State(map[], map[])
    && forall k :: 0 <= k < |events| ==> Step(states[k], events[k], states[k + 1])
  }

  /** Everything but the supported transitions agrees between a record and its map entry. */
  predicate Agree(stored: Status, cached: Status) {
    stored == cached.(supported := stored.supported)
  }

  ghost predicate InStep(s: State) {
    && (forall x :: x in s.store ==> x in s.cache && Agree(s.store[x], s.cache[x]))
    && (forall x :: x in s.cache && x !in s.store ==>
        s.cache[x].power == Undefined && s.cache[x].management == Unavailable)
  }

  lemma StepKeepsInStep(s: State, e: Event, s': State)
    requires InStep(s) && Step(s, e, s')
    ensures InStep(s')
  {
  }

  /**
   * After any mix of refreshes and updates, every record agrees with its map entry, a component
   * without a record is still undefined and unavailable, and no record outlives its map entry.
   */
  lemma {:induction false} AlwaysInStep(states: seq<State>, events: seq<Event>, k: nat)
    requires Run(states, events) && k < |states|
    ensures InStep(states[k])
  {
    if k > 0 {
      AlwaysInStep(states, events, k - 1);
      StepKeepsInStep(states[k - 1], events[k - 1], states[k]);
    }
  }

  // Supported transitions of records and entries ------------------------------------------------

  /** A refresh that lists component x and handles it. */
  predicate Renews(e: Event, x: Xname) {
    e.Refresh? && x in e.hsm && Handled(e.hsm[x])
  }

  /** An update that changes the state of component x. */
  predicate Changes(s: State, e: Event, x: Xname) {
    && e.Update? && e.x == x && x in s.cache
    && !(s.cache[x].power == e.power && s.cache[x].management == e.management)
  }

  /**
   * Whether record and entry agree after a step: after a refresh that renews x exactly when the
   * record already has the renewed transitions, after an update that changes x always, and after
   * any other step exactly when they did before.
   */
  lemma AgreementStep(s: State, e: Event, s': State, x: Xname)
    requires InStep(s) && Step(s, e, s') && x in s'.store
    ensures x in s'.cache
    ensures Changes(s, e, x) ==> s'.store[x] == s'.cache[x]
    ensures Renews(e, x) ==> x in s.store && s'.store[x] == s.store[x]
                             && (s'.store[x] == s'.cache[x] <==> s.store[x].supported == SupportedBy(e.hsm[x].resets))
    ensures !Changes(s, e, x) && !Renews(e, x) ==>
              x in s.store && s'.store[x] == s.store[x] && s'.cache[x] == s.cache[x]
  {
    hide SupportedBy, Handled;
  }

  /** The reset types of x in the last refresh before event n that renewed it. */
  function LastRenewal(events: seq<Event>, n: nat, x: Xname): Option<seq<Action>>
    requires n <= |events|
  {
    if n == 0 then None
    else if Renews(events[n - 1], x) then Some(events[n - 1].hsm[x].resets)
    else LastRenewal(events, n - 1, x)
  }

  /** The reset types that were the last renewed ones when x last changed its state, before event n. */
  function AtLastChange(states: seq<State>, events: seq<Event>, n: nat, x: Xname): Option<seq<Action>>
    requires n <= |events| < |states|
  {
    if n == 0 then None
    else if Changes(states[n - 1], events[n - 1], x) then LastRenewal(events, n - 1, x)
    else AtLastChange(states, events, n - 1, x)
  }

  /** An entry has the transitions of its last renewal. */
  lemma {:induction false} EntryIsRenewed(states: seq<State>, events: seq<Event>, n: nat, x: Xname)
    requires Run(states, events) && n <= |events| && x in states[n].cache
    ensures LastRenewal(events, n, x).Some?
    ensures states[n].cache[x].supported == SupportedBy(LastRenewal(events, n, x).value)
  {
    hide SupportedBy, Handled;
    if n > 0 {
      assert Step(states[n - 1], events[n - 1], states[n]);
      if x in states[n - 1].cache {
        EntryIsRenewed(states, events, n - 1, x);
      }
    }
  }

  /** A record has the transitions its entry had at the last change of state. */
  lemma {:induction false} RecordIsFromLastChange(states: seq<State>, events: seq<Event>, n: nat, x: Xname)
    requires Run(states, events) && n <= |events| && x in states[n].store
    ensures AtLastChange(states, events, n, x).Some?
    ensures states[n].store[x].supported == SupportedBy(AtLastChange(states, events, n, x).value)
  {
    hide SupportedBy, Handled, RefreshedTo, InStep;
    if n > 0 {
      assert Step(states[n - 1], events[n - 1], states[n]);
      AlwaysInStep(states, events, n - 1);
      AgreementStep(states[n - 1], events[n - 1], states[n], x);
      if Changes(states[n - 1], events[n - 1], x) {
        EntryIsRenewed(states, events, n - 1, x);
      } else {
        RecordIsFromLastChange(states, events, n - 1, x);
      }
    }
  }

  /**
   * Over every run, a record is the same as its map entry exactly when the last refresh that
   * renewed the component supports what the one in force at its last change of state did.
   */
  lemma RecordsAgreeExactly(states: seq<State>, events: seq<Event>, n: nat, x: Xname)
    requires Run(states, events) && n <= |events| && x in states[n].store
    ensures x in states[n].cache
    ensures LastRenewal(events, n, x).Some? && AtLastChange(states, events, n, x).Some?
    ensures states[n].store[x] == states[n].cache[x] <==>
            SupportedBy(LastRenewal(events, n, x).value) == SupportedBy(AtLastChange(states, events, n, x).value)
  {
    hide SupportedBy, Handled, RefreshedTo, LastRenewal, AtLastChange;
    AlwaysInStep(states, events, n);
    EntryIsRenewed(states, events, n, x);
    RecordIsFromLastChange(states, events, n, x);
  }

  // What the map says of the hardware -------------------------------------------------------------

  /** An observed state of a component. */
  datatype Observation = Observation(power: PowerState, management: ManagementState, error: string)

  /** What the update of a changed state puts into map and store, and what a refresh leaves listed. */
  lemma StepShows(s: State, e: Event, s': State, x: Xname)
    requires Step(s, e, s')
    ensures Changes(s, e, x) ==> x in s'.cache && x in s'.store && s'.store[x] == s'.cache[x]
                                 && s'.cache[x].power == e.power && s'.cache[x].management == e.management
                                 && s'.cache[x].error == e.error && s'.cache[x].lastUpdated == e.now
    ensures e.Update? && e.x == x && x in s.cache ==>
              x in s'.cache && s'.cache[x].power == e.power && s'.cache[x].management == e.management
    ensures !Changes(s, e, x) && x in s.cache && x in s'.cache ==>
              s'.cache[x].power == s.cache[x].power && s'.cache[x].management == s.cache[x].management
              && s'.cache[x].error == s.cache[x].error && s'.cache[x].lastUpdated == s.cache[x].lastUpdated
    ensures e.Refresh? && e.hsm != map[] ==>
              (x in s'.cache <==> x in e.hsm && (x in s.cache || Handled(e.hsm[x])))
    ensures e.Refresh? && e.hsm != map[] && x !in s.cache && x in s'.cache ==>
              s'.cache[x].power == Undefined && s'.cache[x].management == Unavailable && s'.cache[x].error == ""
    ensures e.Refresh? && e.hsm != map[] && x in s.cache && x !in e.hsm ==> x !in s'.cache && x !in s'.store
    ensures e.Update? || e.hsm == map[] ==> s'.cache.Keys == s.cache.Keys
  {
    hide SupportedBy;
  }

  /** What was last observed of x before event n, since its entry was made. */
  function LastSeen(states: seq<State>, events: seq<Event>, n: nat, x: Xname): Observation
    requires n <= |events| < |states|
  {
    if n == 0 || x !in states[n - 1].cache then Observation(Undefined, Unavailable, "")
    else if Changes(states[n - 1], events[n - 1], x) then
      Observation(events[n - 1].power, events[n - 1].management, events[n - 1].error)
    else LastSeen(states, events, n - 1, x)
  }

  /**
   * Over every run the map says of a component what the last update that changed it said, and
   * undefined and unavailable when there was none since its entry was made; a record says the same.
   */
  lemma {:induction false} MapShowsLastSeen(states: seq<State>, events: seq<Event>, n: nat, x: Xname)
    requires Run(states, events) && n <= |events| && x in states[n].cache
    ensures var status := states[n].cache[x];
            Observation(status.power, status.management, status.error) == LastSeen(states, events, n, x)
    ensures x in states[n].store ==>
              var record := states[n].store[x];
              Observation(record.power, record.management, record.error) == LastSeen(states, events, n, x)
  {
    hide SupportedBy, RefreshedTo, Updated;
    if n > 0 {
      assert Step(states[n - 1], events[n - 1], states[n]);
      StepShows(states[n - 1], events[n - 1], states[n], x);
      if x in states[n - 1].cache {
        MapShowsLastSeen(states, events, n - 1, x);
      }
    }
    AlwaysInStep(states, events, n);
  }

  /** A run after which they differ: the component is renewed with more transitions after its last change of state. */
  lemma RecordsLagBehind(x: Xname) returns (states: seq<State>, events: seq<Event>)
    ensures Run(states, events)
    ensures var s := states[|events|];
            x in s.store && x in s.cache && OpOn in s.cache[x].supported && OpOn !in s.store[x].supported
  {
    hide SupportedBy;
    var poor := map[x := Reported(Node, false, [])];
    var rich := map[x := Reported(Node, false, [On])];
    events := [Refresh(poor, 0), Update(x, PoweredOn, Available, "", 1), Refresh(rich, 2)];
    var c0 := Status(Undefined, Unavailable, "", SupportedBy([]), 0);
    var c1 := Status(PoweredOn, Available, "", SupportedBy([]), 1);
    var c2 := c1.(supported := SupportedBy([On]));
    states := [State(map[], map[]), State(map[x := c0], map[]), State(map[x := c1], map[x := c1]), State(map[x :=
        c2], map[x := c1])];
    assert Step(states[0], events[0], states[1]);
    assert Step(states[1], events[1], states[2]);
    assert Step(states[2], events[2], states[3]);
    OnBySupport();
  }

  lemma OnBySupport()
    ensures OpOn in SupportedBy([On]) && OpOn !in SupportedBy([])
  {
  }
}
