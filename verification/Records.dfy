/** The records the storage layer keeps for a transition. */
module Records {
  import opened PowerTypes

  type Uuid = string

  /** One line of a finished transition's report. */
  datatype TaskResp = TaskResp(xname: string, status: string, desc: string, error: string)

  datatype Location = Location(xname: string, deputyKey: string)

  datatype TaskCounts =
      TaskCounts(total: int, new_: int, inProgress: int, failed: int, succeeded: int, unsupported: int)

  /** The three lists that may be too long for one entry. */
  datatype Lists = Lists(tasks: seq<TaskResp>, locations: seq<Location>, taskIDs: seq<Uuid>)

  const NoLists := Lists([], [], [])

  function Join(a: Lists, b: Lists): Lists {
    Lists(a.tasks + b.tasks, a.locations + b.locations, a.taskIDs + b.taskIDs)
  }

  lemma JoinAssociates(a: Lists, b: Lists, c: Lists)
    ensures Join(Join(a, b), c) == Join(a, Join(b, c))
    ensures Join(a, NoLists) == a && Join(NoLists, a) == a
  {
  }

  /** Every field of a transition that is not a list. */
  datatype Header = Header(
    operation: Operation,
    deadline: int,
    created: int,
    active: int,
    expires: int,
    status: string,
    compressed: bool,
    counts: TaskCounts)

  datatype Transition = Transition(id: Uuid, header: Header, lists: Lists)

  /** A later part of a transition, stored under its own key. */
  datatype Page = Page(id: Uuid, index: nat, lists: Lists)

  /** A stored task, as far as reports read it. */
  datatype TaskRecord = TaskRecord(id: Uuid, transition: Uuid, resp: TaskResp)
}
