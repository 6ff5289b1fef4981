/** The vocabulary of a pool: phases, reasons and the status row of one cell. */
module CellTypes {

  datatype Option<+T> = None | Some(value: T)

  /** `Unset` is the empty phase of a row that has never been written. */
  datatype Phase =
    | Unset
    | Pending
    | AllocatingGPU
    | GuestProvisioning
    | Booting
    | Joining
    | AwaitingGPUCapacity
    | Ready
    | Draining
    | Deleting
    | Failed

  /** Machine-readable causes. `NoReason` is the empty string. */
  datatype Reason =
    | NoReason
    | Unreachable
    | CellProvisionTimeout
    | NodeNameCollision
    | NodeNeverRegistered
    | JoinTimeout
    | GPUNotAdvertised
    | CellDraining
    | WaitingForAllocations
    | DrainTimedOut
    | FaultNotInTheCell
    | CellReplacementExhausted
    | BootstrapCredentialSuspect
    | InsufficientGPUs
    | Other(text: string)

  /** One row of the pool's status: what is remembered about a cell between passes.
      Times are whole seconds; an absent time is `None`. */
  datatype Row = Row(
    name: string,
    index: int,
    phase: Phase,
    uid: string,
    hash: string,
    nodeName: string,
    nodeReady: bool,
    capacityDevices: int,
    reason: Reason,
    failureCount: int,
    readyOnce: bool,
    since: Option<int>)

  /** The row of a cell nothing is remembered about. */
  const BLANK_ROW := Row("", 0, Unset, "", "", "", false, 0, NoReason, 0, false, None)

  /** On its way out: teardown owns the cell. */
  predicate Leaving(phase: Phase) {
    phase == Draining || phase == Deleting
  }

  /** What still holds one cell's GPU, as the capacity provider reports it. */
  datatype Allocations = Allocations(consumers: nat, memoryMiB: int, corePercent: int, inFlight: bool) {
    predicate Empty() {
      consumers == 0 && !inFlight
    }
  }

  predicate DistinctNames(cells: seq<Row>) {
    forall i, j :: 0 <= i < j < |cells| ==> cells[i].name != cells[j].name
  }

  function Min(a: int, b: int): int {
    if a <= b then a else b
  }

  function Max(a: int, b: int): int {
    if a >= b then a else b
  }
}
