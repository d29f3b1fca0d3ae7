/**
 * The container record of the metadata table, the status event of the
 * analytics index, and the plain data carriers that cross the service's
 * boundary (filter, import summary, uptime details, id/name pair).
 */
module ContainerModel {
  import opened Outcomes

  const StatusRunning: string := "running"
  const StatusStopped: string := "stopped"

  /** One minute as a Go `time.Duration` (nanoseconds). */
  const Minute: int := 60_000_000_000

  /**
   * A row of the `containers` table. `id` is the auto-increment primary key;
   * `containerId` (the runtime's id) and `containerName` carry unique
   * constraints; timestamps are Unix seconds.
   */
  datatype Container = Container(
    id: nat,
    containerId: string,
    containerName: string,
    imageName: string,
    status: string,
    createdAt: int,
    updatedAt: int)

  /** What a caller hands to an insert: every column except the key and the two timestamps. */
  datatype NewContainer = NewContainer(
    containerId: string,
    containerName: string,
    imageName: string,
    status: string)

  /** The caller-supplied columns of a row. */
  function Fields(c: Container): NewContainer
  {
    NewContainer(c.containerId, c.containerName, c.imageName, c.status)
  }

  /** The row an insert at time `now` stores under the key `id`. */
  function Inserted(n: NewContainer, id: nat, now: int): (c: Container)
    ensures Fields(c) == n && c.id == id
    ensures c.createdAt == now && c.updatedAt == now
  {
    Container(id, n.containerId, n.containerName, n.imageName, n.status, now, now)
  }

  /** A status value the analytics index accepts. */
  predicate IsKnownStatus(s: string)
  {
    s == StatusRunning || s == StatusStopped
  }

  /** The optional listing filter; an empty field imposes nothing. */
  datatype ContainerFilter = ContainerFilter(
    containerId: string,
    containerName: string,
    imageName: string,
    status: string)

  /** The outcome of a spreadsheet import, as reported to the caller. */
  datatype ImportResult = ImportResult(
    successfulCount: int,
    successfulItems: seq<string>,
    failedCount: int,
    failedItems: seq<string>)

  /** Uptime per container (keyed by the decimal text of its id) and in total, in nanoseconds. */
  datatype UptimeDetails = UptimeDetails(totalUptime: int, perContainerUptime: map<string, int>)

  /** The id/name pair the gRPC listing returns. */
  datatype ContainerName = ContainerName(id: nat, containerName: string)

  /** A document of the `container_status` index. */
  datatype StatusEvent = StatusEvent(id: nat, status: string, timestamp: int)

  /** The value of one key of a JSON update body. */
  datatype Value = Str(s: string) | Num(n: int) | Flag(b: bool) | Null

  /** A partial update: JSON field or Go field names to new values. */
  type PatchMap = map<string, Value>
}
