/** The records the power transition service works on: operations, tasks and components. */
module PowerTypes {

  type Xname = string

  /** The component types PCS can power control; every other type is OtherType. */
  datatype HMSType =
    | Chassis | ComputeModule | RouterModule | Node | CabinetPDUPowerConnector
    | ChassisBMC | NodeBMC | RouterBMC
    | MgmtSwitch | MgmtHLSwitch | CDUMgmtSwitch
    | OtherType | HMSTypeInvalid

  datatype Operation =
    | OpNil | OpOn | OpOff | OpSoftRestart | OpHardRestart | OpInit | OpForceOff | OpSoftOff

  /** A Redfish reset type, compared without regard to case; the ones PCS never sends are OtherReset. */
  datatype Action =
    | On | Off | GracefulShutdown | ForceOff | GracefulRestart | ForceRestart | OtherReset(name: string)

  datatype TaskState = GatherData | Sending | Waiting | Confirming

  datatype TaskStatus = New | InProgress | Failed | Succeeded | Unsupported

  datatype PowerState = PoweredOn | PoweredOff | Undefined

  datatype Supply = Supply(id: Xname, state: PowerState)

  datatype Task = Task(operation: Operation, state: TaskState, status: TaskStatus, reserved: bool)

  datatype Component = Component(
    power: PowerState,
    supported: set<Operation>,
    actions: set<Action>,
    supplies: seq<Supply>,
    outletKnown: bool,
    task: Task,
    actionCount: int)

  /** What the xname grammar provides: a type and a parent for every name. */
  datatype Topology = Topology(
    typeOf: Xname -> HMSType,
    parentOf: Xname -> Xname,
    isController: HMSType -> bool)
  {
    ghost predicate Valid() {
      && typeOf("") == HMSTypeInvalid
      && (forall x :: typeOf(x) != HMSTypeInvalid ==> |parentOf(x)| < |x|)
      && (forall x :: typeOf(x) == Node ==> typeOf(parentOf(parentOf(x))) == ComputeModule)
    }
  }

  predicate Unfinished(task: Task) {
    task.status == New || task.status == InProgress
  }

  /** The task operation recorded for a sent action, so that a restart knows what was under way. */
  function OperationOf(a: Action): Operation {
    match a
    case GracefulShutdown => OpOff
    case GracefulRestart => OpSoftRestart
    case ForceOff => OpForceOff
    case ForceRestart => OpHardRestart
    case On => OpOn
    case _ => OpNil
  }
}
