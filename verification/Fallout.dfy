/**
 * Who else fails when a task fails: the module of a node whose graceful shutdown failed and, unless
 * another supply keeps it powered, its last supply that is on. And what a round of such failures
 * leaves behind, whatever order it is done in.
 */
module Fallout {
  import opened PowerTypes
  import opened PowerSequence
  import opened Planner
  import opened RunInvariant

  /** A supply outside the request is on. */
  predicate PoweredElsewhere(names: set<Xname>, supplies: seq<Supply>) {
    exists i :: 0 <= i < |supplies| && supplies[i].id !in names && supplies[i].state == PoweredOn
  }

  /** The last supply that is on, or the empty name. */
  function LastOn(supplies: seq<Supply>): (r: Xname)
    ensures (exists i :: 0 <= i < |supplies| && supplies[i].state == PoweredOn) ==> Supply(r, PoweredOn) in supplies
    ensures r != "" ==> Supply(r, PoweredOn) in supplies
  {
    if supplies == [] then ""
    else if supplies[|supplies| - 1].state == PoweredOn then supplies[|supplies| - 1].id
    else LastOn(supplies[..|supplies| - 1])
  }

  /** What fails together with node n. */
  function Dependents(top: Topology, names: set<Xname>, n: Xname, supplies: seq<Supply>): set<Xname> {
    {top.parentOf(top.parentOf(n))}
    + if !PoweredElsewhere(names, supplies) && LastOn(supplies) != "" then {LastOn(supplies)} else {}
  }

  /** Everything that fails when action a fails on x. */
  function StruckBy(top: Topology, c: Components, a: Action, x: Xname): set<Xname>
    requires x in c
  {
    {x} + if a == GracefulShutdown && top.typeOf(x) == Node then Dependents(top, c.Keys, x, c[x].supplies) else {}
  }

  function Fail(c: Component): Component {
    c.(task := c.task.(status := Failed))
  }

  function FailAll(c: Components, xs: set<Xname>): Components {
    map y | y in c :: if y in xs then Fail(c[y]) else c[y]
  }

  /** Scans the supplies of a node: is one outside the request still on, and else which On supply comes last. */
  method SupplyToFail(comps: Components, supplies: seq<Supply>) returns (willHavePower: bool, failSupply: Xname)
    ensures willHavePower <==> PoweredElsewhere(comps.Keys, supplies)
    ensures !willHavePower ==> failSupply == LastOn(supplies)
  {
    willHavePower, failSupply := false, "";
    for n := 0 to |supplies|
      invariant !willHavePower
      invariant forall i :: 0 <= i < n && supplies[i].id !in comps ==> supplies[i].state != PoweredOn
      invariant failSupply == LastOn(supplies[..n])
    {
      var supply := supplies[n];
      assert supplies[..n + 1][..n] == supplies[..n];
      if supply.id !in comps && supply.state == PoweredOn {
        willHavePower := true;
        break;
      } else if supply.state == PoweredOn {
        failSupply := supply.id;
      }
    }
    assert supplies[..|supplies|] == supplies;
  }

  /** Nothing that fails on account of a node is a node. */
  lemma DependentsAreNoNodes(top: Topology, c: Components, n: Xname, y: Xname)
    requires top.Valid() && SuppliesOK(top, c) && n in c && top.typeOf(n) == Node
    requires y in Dependents(top, c.Keys, n, c[n].supplies)
    ensures top.typeOf(y) != Node
  {
    if y != top.parentOf(top.parentOf(n)) {
      var i :| 0 <= i < |c[n].supplies| && c[n].supplies[i] == Supply(y, PoweredOn);
      assert top.typeOf(c[n].supplies[i].id) == CabinetPDUPowerConnector;
    }
  }

  // A round of failures ---------------------------------------------------------------------------

  /** y fails in a round that hits some components, those in "down" while they are to be shut down gracefully. */
  ghost predicate InWave(top: Topology, c: Components, hits: set<Xname>, down: set<Xname>, y: Xname) {
    y in hits || exists n :: IsOrigin(top, c, hits, down, n, y)
  }

  /** Node n is hit while it is to be shut down, and y fails with it. */
  predicate IsOrigin(top: Topology, c: Components, hits: set<Xname>, down: set<Xname>, n: Xname, y: Xname) {
    n in hits && n in down && n in c && top.typeOf(n) == Node && y in Dependents(top, c.Keys, n, c[n].supplies)
  }

  /** A component once its task has failed, and once it has been given a reservation key. */
  function Marked(c: Component, failed: bool, keyed: bool): Component {
    c.(task := c.task.(status := if failed then Failed else c.task.status, reserved := keyed || c.task.reserved))
  }

  /** From c to d: exactly the components of the wave have failed, and exactly the keyed ones have got their key. */
  ghost predicate Waved(top: Topology, c: Components, d: Components, hits: set<Xname>, down: set<Xname>,
                        keyed: set<Xname>) {
    d.Keys == c.Keys && forall y :: y in c ==> d[y] == Marked(c[y], InWave(top, c, hits, down, y), y in keyed)
  }

  lemma WaveStart(top: Topology, c: Components, down: set<Xname>)
    ensures Waved(top, c, c, {}, down, {})
  {
  }

  lemma WaveKey(top: Topology, c: Components, d: Components, hits: set<Xname>, down: set<Xname>, keyed: set<Xname>,
                x: Xname)
    requires Waved(top, c, d, hits, down, keyed) && x in c
    ensures Waved(top, c, d[x := d[x].(task := d[x].task.(reserved := true))], hits, down, keyed + {x})
  {
    hide InWave;
  }

  /** The wave grows by the component hit and what fails with it. */
  lemma WaveGrows(top: Topology, c: Components, hits: set<Xname>, down: set<Xname>, x: Xname, a: Action, y: Xname)
    requires x in c && (top.typeOf(x) == Node ==> (a == GracefulShutdown <==> x in down))
    ensures InWave(top, c, hits + {x}, down, y) <==> InWave(top, c, hits, down, y) || y in StruckBy(top, c, a, x)
  {
    hide Dependents;
    if InWave(top, c, hits + {x}, down, y) && y !in hits + {x} {
      var n :| IsOrigin(top, c, hits + {x}, down, n, y);
      assert n == x || IsOrigin(top, c, hits, down, n, y);
    }
    if InWave(top, c, hits, down, y) && y !in hits {
      var n :| IsOrigin(top, c, hits, down, n, y);
      assert IsOrigin(top, c, hits + {x}, down, n, y);
    }
    if y in StruckBy(top, c, a, x) && y != x {
      assert IsOrigin(top, c, hits + {x}, down, x, y);
    }
  }

  /** An unfinished component is hit: it fails with its fallout, unless it has failed in this round already. */
  lemma WaveHit(top: Topology, c: Components, d: Components, hits: set<Xname>, down: set<Xname>, keyed: set<Xname>,
                x: Xname, a: Action)
    requires top.Valid() && SuppliesOK(top, c) && Waved(top, c, d, hits, down, keyed)
    requires x in c && Unfinished(c[x].task) && (top.typeOf(x) == Node ==> (a == GracefulShutdown <==> x in down))
    ensures Waved(top, c, if Unfinished(d[x].task) then FailAll(d, StruckBy(top, d, a, x)) else d, hits + {x}, down,
        keyed)
  {
    hide Dependents, InWave;
    assert StruckBy(top, d, a, x) == StruckBy(top, c, a, x);
    forall y | y in c ensures InWave(top, c, hits + {x}, down, y) <==>
        InWave(top, c, hits, down, y) || y in StruckBy(top, c, a, x) {
      WaveGrows(top, c, hits, down, x, a, y);
    }
    if !Unfinished(d[x].task) {
      forall y | y in StruckBy(top, c, a, x) ensures InWave(top, c, hits, down, y) {
        HitBefore(top, c, hits, down, x, a, y);
      }
    }
  }

  /** What has failed in this round has brought its fallout with it. */
  lemma HitBefore(top: Topology, c: Components, hits: set<Xname>, down: set<Xname>, x: Xname, a: Action, y: Xname)
    requires top.Valid() && SuppliesOK(top, c) && x in c && InWave(top, c, hits, down, x)
    requires top.typeOf(x) == Node ==> (a == GracefulShutdown <==> x in down)
    requires y in StruckBy(top, c, a, x)
    ensures InWave(top, c, hits, down, y)
  {
    hide Dependents;
    if y != x {
      if x !in hits {
        var n :| IsOrigin(top, c, hits, down, n, x);
        DependentsAreNoNodes(top, c, n, x);
      }
      assert IsOrigin(top, c, hits, down, x, y);
    }
  }
}
