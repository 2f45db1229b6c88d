/**
 * Power cap patches: the controls found in the hardware inventory, the validation of the
 * requested values against them, and the payload sent to the controller.
 */
module PowerCapPatch {
  import opened Wrappers

  /** A limit of -1 is one the inventory does not know. */
  const UNKNOWN := -1

  datatype PowerCap = PowerCap(name: string, path: string, min: int, max: int, index: nat)

  /** An entry of the newer Controls list. */
  datatype Control = Control(name: string, url: string, rangeMin: int, rangeMax: int)

  datatype Range = Range(min: int, max: int)

  /** An entry of the older PowerControl list, with the limits of either vendor. */
  datatype PowerCtl = PowerCtl(name: string, oid: string, cray: Option<Range>, hpe: Option<Range>, target: string)

  datatype Inventory = Inventory(powerURL: string, controls: seq<Control>, powerCtl: seq<PowerCtl>)

  predicate Contains(s: string, t: string) {
    |t| <= |s| && (s[..|t|] == t || (s != "" && Contains(s[1..], t)))
  }

  predicate IsApollo(url: string) {
    Contains(url, "AccPowerService/PowerLimit")
  }

  predicate IsHpeServer(url: string) {
    Contains(url, "Chassis/1/Power")
  }

  /** A path up to its fragment. */
  function WithoutFragment(oid: string): string {
    if oid == "" || oid[0] == '#' then "" else [oid[0]] + WithoutFragment(oid[1..])
  }

  // Extraction -----------------------------------------------------------------------------------

  function FromControl(c: Control, i: nat): PowerCap {
    PowerCap(c.name, c.url, c.rangeMin, c.rangeMax, i)
  }

  function FromPowerCtl(info: Inventory, c: PowerCtl, i: nat): PowerCap {
    var name := if IsApollo(info.powerURL) || IsHpeServer(info.powerURL) then "Node Power Limit" else c.name;
    var range := if c.cray.Some? then c.cray.value else if c.hpe.Some? then c.hpe.value else Range(UNKNOWN, UNKNOWN);
    var path := WithoutFragment(c.oid);
    PowerCap(name, if path == "" then info.powerURL else path, range.min, range.max, i)
  }

  /** The controls the inventory lists, in its own order. */
  function Listed(info: Inventory): (r: seq<PowerCap>)
    ensures |r| == if |info.controls| > 0 then |info.controls| else |info.powerCtl|
    ensures forall i :: 0 <= i < |r| ==> r[i].index == i
  {
    if |info.controls| > 0 then
      seq(|info.controls|, i requires 0 <= i < |info.controls| => FromControl(info.controls[i], i))
    else
      seq(|info.powerCtl|, i requires 0 <= i < |info.powerCtl| => FromPowerCtl(info, info.powerCtl[i], i))
  }

  /** The map by name of the first n listed controls: of controls with the same name the last one counts. */
  predicate ByName(caps: map<string, PowerCap>, listed: seq<PowerCap>, n: nat) {
    && n <= |listed|
    && (forall name :: name in caps ==>
          caps[name].name == name && caps[name].index < n && listed[caps[name].index] == caps[name])
    && (forall i :: 0 <= i < n ==> listed[i].name in caps && i <= caps[listed[i].name].index)
  }

  /**
   * What a cap says of its entry in the older list: the vendor's bounds, Cray's before HPE's, and -1
   * for each when neither gives any; the entry's path up to its fragment, or the power address when
   * there is none; and the entry's name, or the common one on HPE hardware.
   */
  predicate Described(info: Inventory, cap: PowerCap) {
    && cap.index < |info.powerCtl|
    && var c := info.powerCtl[cap.index];
    && (c.cray.Some? ==> cap.min == c.cray.value.min && cap.max == c.cray.value.max)
    && (c.cray.None? && c.hpe.Some? ==> cap.min == c.hpe.value.min && cap.max == c.hpe.value.max)
    && (c.cray.None? && c.hpe.None? ==> cap.min == -1 && cap.max == -1)
    && (IsApollo(info.powerURL) || IsHpeServer(info.powerURL) ==> cap.name == "Node Power Limit")
    && (!IsApollo(info.powerURL) && !IsHpeServer(info.powerURL) ==> cap.name == c.name)
    && (c.oid == "" || c.oid[0] == '#' ==> cap.path == info.powerURL)
    && (c.oid != "" && c.oid[0] != '#' ==>
          && cap.path <= c.oid && '#' !in cap.path
          && (cap.path == c.oid || c.oid[|cap.path|] == '#'))
  }

  lemma {:induction false} UpToFragment(oid: string)
    ensures var path := WithoutFragment(oid);
            && path <= oid && '#' !in path && (path == oid || oid[|path|] == '#')
            && (path == "" <==> oid == "" || oid[0] == '#')
  {
    if oid != "" && oid[0] != '#' {
      UpToFragment(oid[1..]);
    }
  }

  lemma PowerCtlDescribed(info: Inventory, c: PowerCtl, i: nat)
    requires i < |info.powerCtl| && info.powerCtl[i] == c
    ensures Described(info, FromPowerCtl(info, c, i))
  {
    hide IsApollo, IsHpeServer;
    UpToFragment(c.oid);
  }

  method ExtractPowerCaps(info: Inventory) returns (caps: map<string, PowerCap>, target: string)
    ensures ByName(caps, Listed(info), |Listed(info)|)
    ensures info.controls != [] ==>
              forall name :: name in caps ==>
                && caps[name].index < |info.controls|
                && var c := info.controls[caps[name].index];
                   caps[name] == PowerCap(c.name, c.url, c.rangeMin, c.rangeMax, caps[name].index) && c.name == name
    ensures info.controls == [] ==>
              forall name :: name in caps ==> caps[name].name == name && Described(info, caps[name])
    ensures target == if info.controls == [] && info.powerCtl != [] && info.powerCtl[0].hpe.Some?
                      then info.powerCtl[0].target else ""
  {
    hide FromPowerCtl, IsApollo, IsHpeServer, Described;
    caps, target := map[], "";
    if |info.controls| > 0 {
      for i := 0 to |info.controls|
        invariant ByName(caps, Listed(info), i)
        invariant forall name :: name in caps ==>
                    && caps[name].index < i
                        && caps[name] == FromControl(info.controls[caps[name].index], caps[name].index)
                    && info.controls[caps[name].index].name == name
      {
        var cap := FromControl(info.controls[i], i);
        assert Listed(info)[i] == cap;
        caps := caps[cap.name := cap];
      }
    } else if |info.powerCtl| > 0 {
      if info.powerCtl[0].hpe.Some? && |info.powerCtl[0].target| > 0 {
        target := info.powerCtl[0].target;
      }
      for i := 0 to |info.powerCtl|
        invariant ByName(caps, Listed(info), i)
        invariant forall name :: name in caps ==>
                    && caps[name].index < i && caps[name].name == name
                    && caps[name] == FromPowerCtl(info, info.powerCtl[caps[name].index], caps[name].index)
      {
        var cap := FromPowerCtl(info, info.powerCtl[i], i);
        assert Listed(info)[i] == cap;
        caps := caps[cap.name := cap];
      }
      forall name | name in caps ensures Described(info, caps[name]) {
        PowerCtlDescribed(info, info.powerCtl[caps[name].index], caps[name].index);
      }
    }
  }

  /** Controls of different names have different positions. */
  lemma PositionsAreDistinct(caps: map<string, PowerCap>, listed: seq<PowerCap>, a: string, b: string)
    requires ByName(caps, listed, |listed|) && a in caps && b in caps
    ensures caps[a].index == caps[b].index <==> a == b
  {
  }

  // Validation -----------------------------------------------------------------------------------

  datatype Limit = Limit(name: string, value: int, min: Option<int>, max: Option<int>)

  function Known(bound: int): Option<int> {
    if bound != UNKNOWN then Some(bound) else None
  }

  /** Zero turns capping off and is allowed below the minimum. */
  predicate Allowed(cap: PowerCap, value: int) {
    && (value == 0 || cap.min == UNKNOWN || cap.min <= value)
    && (cap.max == UNKNOWN || value <= cap.max)
  }

  predicate Requested(caps: map<string, PowerCap>, request: map<string, int>, name: string) {
    name in caps && name in request && Allowed(caps[name], request[name])
  }

  /** The limits are the allowed ones among the names, each once. */
  predicate Chosen(caps: map<string, PowerCap>, request: map<string, int>, names: set<string>, limits: seq<Limit>) {
    && (forall i :: 0 <= i < |limits| ==>
          && limits[i].name in names && Requested(caps, request, limits[i].name)
          && limits[i].value == request[limits[i].name]
          && limits[i].min == Known(caps[limits[i].name].min) && limits[i].max == Known(caps[limits[i].name].max))
    && (forall i, j :: 0 <= i < j < |limits| ==> limits[i].name != limits[j].name)
    && (forall name :: name in names && Requested(caps, request, name) ==>
        exists i :: 0 <= i < |limits| && limits[i].name == name)
  }

  /** Visits the controls in any order and keeps the values that are allowed. */
  method Validate(caps: map<string, PowerCap>, request: map<string, int>) returns (limits: seq<Limit>, isError: bool)
    ensures Chosen(caps, request, caps.Keys, limits)
    ensures isError <==> limits == []
    ensures forall name :: (exists i :: 0 <= i < |limits| && limits[i].name == name) <==>
              && name in caps && name in request
              && (request[name] == 0 || caps[name].min == -1 || caps[name].min <= request[name])
              && (caps[name].max == -1 || request[name] <= caps[name].max)
    ensures forall i :: 0 <= i < |limits| ==> limits[i].value == request[limits[i].name]
  {
    limits, isError := [], true;
    var rest := caps.Keys;
    while rest != {}
      invariant rest <= caps.Keys
      invariant Chosen(caps, request, caps.Keys - rest, limits)
      invariant isError <==> limits == []
      decreases rest
    {
      var name :| name in rest;
      ghost var done := caps.Keys - rest;
      rest := rest - {name};
      assert caps.Keys - rest == done + {name};
      if name in request {
        var val, cap := request[name], caps[name];
        if cap.min != UNKNOWN && val != 0 && val < cap.min {
          SkipOne(caps, request, done, limits, name);
        } else if cap.max != UNKNOWN && val > cap.max {
          SkipOne(caps, request, done, limits, name);
        } else {
          TakeOne(caps, request, done, limits, name);
          limits := limits + [Limit(name, val, Known(cap.min), Known(cap.max))];
          isError := false;
        }
      } else {
        SkipOne(caps, request, done, limits, name);
      }
    }
    assert caps.Keys - rest == caps.Keys;
    assert forall name :: Requested(caps, request, name) ==> exists i :: 0 <= i < |limits| && limits[i].name == name;
  }

  lemma SkipOne(caps: map<string, PowerCap>, request: map<string, int>, done: set<string>, limits: seq<Limit>,
                name: string)
    requires Chosen(caps, request, done, limits) && !Requested(caps, request, name)
    ensures Chosen(caps, request, done + {name}, limits)
  {
  }

  lemma TakeOne(caps: map<string, PowerCap>, request: map<string, int>, done: set<string>, limits: seq<Limit>,
                name: string)
    requires Chosen(caps, request, done, limits) && Requested(caps, request, name) && name !in done
    ensures Chosen(caps, request, done + {name},
                   limits + [Limit(name, request[name], Known(caps[name].min), Known(caps[name].max))])
  {
    var more := limits + [Limit(name, request[name], Known(caps[name].min), Known(caps[name].max))];
    assert more[|limits|].name == name;
    forall other | other in done + {name} && Requested(caps, request, other)
      ensures exists i :: 0 <= i < |more| && more[i].name == other
    {
      if other != name {
        var i :| 0 <= i < |limits| && limits[i].name == other;
        assert more[i].name == other;
      }
    }
  }

  // Payloads ---------------------------------------------------------------------------------------

  datatype Member = Member(path: string, setPoint: Option<int>)

  datatype Payload =
    | Deep(members: seq<Member>)
    | Apollo(watts: int)
    | Generic(slots: seq<Option<int>>)

  /** One slot for each control of the inventory, filled where a limit was requested. */
  predicate Filled(caps: map<string, PowerCap>, limits: seq<Limit>, slots: seq<Option<int>>) {
    && (forall i :: 0 <= i < |limits| && limits[i].name in caps ==>
          caps[limits[i].name].index < |slots| && slots[caps[limits[i].name].index] == Some(limits[i].value))
    && (forall s :: 0 <= s < |slots| && slots[s].Some? ==>
          exists i :: 0 <= i < |limits| && limits[i].name in caps && caps[limits[i].name].index == s)
  }

  lemma FillOne(caps: map<string, PowerCap>, limits: seq<Limit>, slots: seq<Option<int>>, limit: Limit)
    requires Filled(caps, limits, slots)
    requires limit.name in caps && caps[limit.name].index < |slots|
    requires forall i :: 0 <= i < |limits| && limits[i].name in caps ==>
        caps[limits[i].name].index != caps[limit.name].index
    ensures Filled(caps, limits + [limit], slots[caps[limit.name].index := Some(limit.value)])
  {
    var idx, more := caps[limit.name].index, limits + [limit];
    var slots' := slots[idx := Some(limit.value)];
    assert more[|limits|] == limit;
    forall s | 0 <= s < |slots'| && slots'[s].Some?
      ensures exists i :: 0 <= i < |more| && more[i].name in caps && caps[more[i].name].index == s
    {
      if s != idx {
        var i :| 0 <= i < |limits| && limits[i].name in caps && caps[limits[i].name].index == s;
        assert more[i] == limits[i];
      }
    }
  }

  method FillSlots(caps: map<string, PowerCap>, limits: seq<Limit>, count: nat) returns (slots: seq<Option<int>>)
    requires forall i :: 0 <= i < |limits| ==> limits[i].name in caps && caps[limits[i].name].index < count
    requires forall i, j :: 0 <= i < j < |limits| ==> caps[limits[i].name].index != caps[limits[j].name].index
    ensures |slots| == count && Filled(caps, limits, slots)
  {
    slots := seq(count, _ => None);
    for k := 0 to |limits|
      invariant |slots| == count
      invariant Filled(caps, limits[..k], slots)
    {
      FillOne(caps, limits[..k], slots, limits[k]);
      slots := slots[caps[limits[k].name].index := Some(limits[k].value)];
      assert limits[..k + 1] == limits[..k] + [limits[k]];
    }
    assert limits[..|limits|] == limits;
  }

  function Members(caps: map<string, PowerCap>, limits: seq<Limit>): seq<Member>
    requires forall i :: 0 <= i < |limits| ==> limits[i].name in caps
  {
    seq(|limits|, i requires 0 <= i < |limits| =>
      Member(caps[limits[i].name].path, if limits[i].value > 0 then Some(limits[i].value) else None))
  }

  /** What a payload says about the limits it was made from. */
  ghost predicate Carries(info: Inventory, caps: map<string, PowerCap>, limits: seq<Limit>, p: Payload) {
    match p
    case Deep(members) =>
      && info.controls != [] && |members| == |limits|
      && forall i :: 0 <= i < |limits| ==>
           && limits[i].name in caps && members[i].path == caps[limits[i].name].path
           && members[i].setPoint == if limits[i].value > 0 then Some(limits[i].value) else None
    case Apollo(watts) =>
      info.controls == [] && |limits| == 1 && watts == limits[0].value
    case Generic(slots) =>
      info.controls == [] && |slots| == |info.powerCtl| && Filled(caps, limits, slots)
  }

  /** On HPE hardware every control gets the same name. */
  lemma ApolloNames(info: Inventory, caps: map<string, PowerCap>, name: string)
    requires info.controls == [] && IsApollo(info.powerURL)
    requires ByName(caps, Listed(info), |Listed(info)|) && name in caps
    ensures name == "Node Power Limit"
  {
  }

  lemma TwoDiffer(caps: map<string, PowerCap>, request: map<string, int>, limits: seq<Limit>)
    requires Chosen(caps, request, caps.Keys, limits) && |limits| > 1
    ensures limits[0].name in caps && limits[1].name in caps && limits[0].name != limits[1].name
  {
  }

  /** So on HPE hardware there is never more than one limit. */
  lemma ApolloHasOneLimit(info: Inventory, caps: map<string, PowerCap>, request: map<string, int>, limits: seq<Limit>)
    requires info.controls == [] && IsApollo(info.powerURL)
    requires ByName(caps, Listed(info), |Listed(info)|) && Chosen(caps, request, caps.Keys, limits)
    ensures |limits| <= 1
  {
    hide IsApollo, Chosen, ByName, Listed;
    if |limits| > 1 {
      TwoDiffer(caps, request, limits);
      ApolloNames(info, caps, limits[0].name);
      ApolloNames(info, caps, limits[1].name);
      assert false;
    }
  }

  /** The payload for validated limits; every index is in bounds because of where the limits come from. */
  method GeneratePayload(info: Inventory, caps: map<string, PowerCap>, ghost request: map<string, int>,
                         limits: seq<Limit>)
    returns (p: Payload)
    requires ByName(caps, Listed(info), |Listed(info)|) && Chosen(caps, request, caps.Keys, limits) && limits != []
    ensures Carries(info, caps, limits, p)
  {
    hide IsApollo, FromPowerCtl;
    if |info.controls| > 0 {
      var members := [];
      for i := 0 to |limits|
        invariant members == Members(caps, limits)[..i]
      {
        var path := caps[limits[i].name].path;
        members := members + [if limits[i].value > 0 then Member(path, Some(limits[i].value)) else Member(path, None)];
      }
      p := Deep(members);
    } else if IsApollo(info.powerURL) {
      ApolloHasOneLimit(info, caps, request, limits);
      p := Apollo(limits[0].value);
    } else {
      forall i, j | 0 <= i < j < |limits| ensures caps[limits[i].name].index != caps[limits[j].name].index {
        PositionsAreDistinct(caps, Listed(info), limits[i].name, limits[j].name);
      }
      var slots := FillSlots(caps, limits, |info.powerCtl|);
      p := Generic(slots);
    }
  }

  // From inventory and request to payload ------------------------------------------------------------

  /**
   * The facts about a component that a patch is refused for; deepURI is the address the Controls schema is patched
   * at.
   */
  datatype Gate = Gate(fqdnKnown: bool, isNode: bool, deepURI: string, isManagement: bool)

  predicate Eligible(info: Inventory, gate: Gate, target: string) {
    var uri := if info.controls == [] then info.powerURL else gate.deepURI;
    gate.fqdnKnown && gate.isNode && uri != "" && !gate.isManagement && (IsApollo(uri) ==> target != "")
  }

  /** A patch of one component, from the inventory and the requested values to what is sent. */
  method Patch(info: Inventory, gate: Gate, request: map<string, int>)
    returns (caps: map<string, PowerCap>, target: string, limits: seq<Limit>, p: Option<Payload>)
    ensures ByName(caps, Listed(info), |Listed(info)|)
    ensures Eligible(info, gate, target) ==> Chosen(caps, request, caps.Keys, limits)
    ensures p.Some? <==> Eligible(info, gate, target) && exists name :: Requested(caps, request, name)
    ensures p.Some? ==> Carries(info, caps, limits, p.value)
    ensures p.Some? ==> gate.fqdnKnown && gate.isNode && !gate.isManagement
    ensures p.Some? && info.controls == [] ==> info.powerURL != "" && (IsApollo(info.powerURL) ==> target != "")
  {
    hide IsApollo, ByName, Listed, Carries;
    caps, target := ExtractPowerCaps(info);
    limits, p := [], None;
    if Eligible(info, gate, target) {
      var isError;
      limits, isError := Validate(caps, request);
      if !isError {
        assert Requested(caps, request, limits[0].name);
        var payload := GeneratePayload(info, caps, request, limits);
        p := Some(payload);
      }
    }
  }

  /** A value is sent to a control by a payload. */
  ghost predicate Sends(caps: map<string, PowerCap>, p: Payload, cap: PowerCap, value: int) {
    match p
    case Deep(members) => exists i :: 0 <= i < |members| && members[i] == Member(cap.path, Some(value))
    case Apollo(watts) => watts == value
    case Generic(slots) => cap.index < |slots| && slots[cap.index] == Some(value)
  }

  /**
   * What the older schemas send for a control: the requested value exactly when it is allowed, and nothing
   * otherwise.
   */
  lemma GenericSendsExactly(info: Inventory, caps: map<string, PowerCap>, request: map<string, int>,
                            limits: seq<Limit>, p: Payload, name: string, value: int)
    requires ByName(caps, Listed(info), |Listed(info)|) && Chosen(caps, request, caps.Keys, limits)
    requires Carries(info, caps, limits, p) && p.Generic? && name in caps
    ensures Sends(caps, p, caps[name], value) <==> Requested(caps, request, name) && value == request[name]
  {
    hide IsApollo, Listed;
    var slots := p.slots;
    if Requested(caps, request, name) {
      var i :| 0 <= i < |limits| && limits[i].name == name;
    }
    if Sends(caps, p, caps[name], value) {
      var i :| 0 <= i < |limits| && limits[i].name in caps && caps[limits[i].name].index == caps[name].index;
      PositionsAreDistinct(caps, Listed(info), limits[i].name, name);
    }
  }

  /** Every limit that reaches any payload is zero or within the known bounds of its control. */
  lemma LimitsAreInRange(caps: map<string, PowerCap>, request: map<string, int>, limits: seq<Limit>, i: nat)
    requires Chosen(caps, request, caps.Keys, limits) && i < |limits|
    ensures limits[i].value == 0 || (limits[i].min.Some? ==> limits[i].min.value <= limits[i].value)
    ensures limits[i].max.Some? ==> limits[i].value <= limits[i].max.value
  {
  }
}
