/** The Redfish reset type that stands for a planned action on a given component. */
module Payloads {
  import opened Wrappers
  import opened PowerTypes

  /** Reset types that do the same to the power, more or less gently. */
  predicate SameEffect(a: Action, b: Action) {
    || a == b
    || (a in {GracefulShutdown, Off, ForceOff} && b in {GracefulShutdown, Off, ForceOff})
    || (a in {GracefulRestart, ForceRestart} && b in {GracefulRestart, ForceRestart})
  }

  /**
   * The reset type to send for action a, falling back from graceful shutdown to off and from restart to force-
   * restart.
   */
  function ResetFor(actions: set<Action>, a: Action): (r: Option<Action>)
    ensures r.Some? ==> r.value in actions && SameEffect(a, r.value)
    ensures a in actions ==> r == Some(a)
    ensures r.Some? <==> a in actions || (a == GracefulShutdown && Off in actions)
                         || (a == GracefulRestart && ForceRestart in actions)
    ensures a != ForceOff ==> r != Some(ForceOff)
  {
    if a in actions then Some(a)
    else if a == GracefulShutdown && Off in actions then Some(Off)
    else if a == GracefulRestart && ForceRestart in actions then Some(ForceRestart)
    else None
  }

  /** A power connector is addressed by its outlet number, any other component by itself. */
  predicate Addressable(c: Component, t: HMSType) {
    t == CabinetPDUPowerConnector ==> c.outletKnown
  }

  /** Whether a payload can be built: the reset type exists and the component can be addressed. */
  predicate HasPayload(c: Component, t: HMSType, a: Action) {
    ResetFor(c.actions, a).Some? && Addressable(c, t)
  }
}
