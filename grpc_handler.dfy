/**
 * The gRPC front end: the container-name listing, and the dashboard summary
 * (counts plus mean uptime ratio) with its request guards.
 */
module GrpcHandler {
  import opened Outcomes
  import opened Text
  import opened ContainerModel
  import opened Repository
  import opened Uptime
  import opened Service

  const NilRequestError: string := "request cannot be nil"
  const NonPositiveTimeError: string := "startTime and endTime must be greater than 0"
  const TimeOrderError: string := "startTime must be less than endTime"
  const RatioRangeError: string := "uptime ratio must be between 0 and 1"

  /** A listing entry on the wire: the key is sent as decimal text. */
  datatype PbContainerName = PbContainerName(id: string, containerName: string)

  /** The summary request: a window in Unix seconds. */
  datatype InfoRequest = InfoRequest(startTime: int, endTime: int)

  /** The summary reply. */
  datatype Info = Info(numContainers: int, numRunningContainers: int, numStoppedContainers: int, meanUptimeRatio: real)

  /** The service calls the summary makes. */
  datatype Query = CountAll | CountRunning | UptimeRatio(start: int, end: int)

  /** The summary's outcome together with the service calls it made, in order. */
  datatype Reply = Reply(result: Result<Info>, queries: seq<Query>)

  /** Convert the service's names to wire entries, one per name, in order. */
  method NamesToPb(containers: seq<ContainerName>) returns (names: seq<PbContainerName>)
    ensures |names| == |containers|
    ensures forall i :: 0 <= i < |names| ==>
      names[i].id == NatToString(containers[i].id) && names[i].containerName == containers[i].containerName
    ensures forall i :: 0 <= i < |names| ==>
      AllDigits(names[i].id) && DecimalValue(names[i].id) == containers[i].id
  {
    var out := new PbContainerName[|containers|];
    var i := 0;
    while i < |containers|
      invariant 0 <= i <= |containers|
      invariant forall j :: 0 <= j < i ==>
        out[j].id == NatToString(containers[j].id) && out[j].containerName == containers[j].containerName
      invariant forall j :: 0 <= j < i ==>
        AllDigits(out[j].id) && DecimalValue(out[j].id) == containers[j].id
    {
      NatToStringValue(containers[i].id);
      out[i] := PbContainerName(NatToString(containers[i].id), containers[i].containerName);
      i := i + 1;
    }
    names := out[..];
  }

  /** The request guards, in order; None when the request may proceed. */
  function InfoGuard(req: Option<InfoRequest>): (err: Option<string>)
    ensures err.None? <==> req.Some? && 0 < req.value.startTime < req.value.endTime
    ensures req.None? ==> err == Some(NilRequestError)
    ensures req.Some? && (req.value.startTime <= 0 || req.value.endTime <= 0) ==> err == Some(NonPositiveTimeError)
    ensures req.Some? && 0 < req.value.startTime && 0 < req.value.endTime <= req.value.startTime ==>
      err == Some(TimeOrderError)
  {
    if req.None? then Some(NilRequestError)
    else if req.value.startTime <= 0 || req.value.endTime <= 0 then Some(NonPositiveTimeError)
    else if req.value.startTime >= req.value.endTime then Some(TimeOrderError)
    else None
  }

  /** Containers not running: total minus running, never below zero. */
  function StoppedCount(total: int, running: int): (stopped: int)
    ensures stopped >= 0
    ensures running <= total ==> stopped + running == total
    ensures running > total ==> stopped == 0
  {
    if total - running < 0 then 0 else total - running
  }

  /**
   * The summary, given what each service call would answer: guards, then the
   * total count, the running count and the ratio; the first failure ends it.
   */
  function GetContainerInformation(req: Option<InfoRequest>, total: Result<int>, running: Result<int>, ratio: Result<real>): (reply: Reply)
    ensures InfoGuard(req).Some? ==> reply == Reply(Err(InfoGuard(req).value), [])
    ensures InfoGuard(req).None? ==>
      var all := [CountAll, CountRunning, UptimeRatio(req.value.startTime, req.value.endTime)];
      reply.queries == all[..if !total.Ok? then 1 else if !running.Ok? then 2 else 3]
    ensures InfoGuard(req).None? && !total.Ok? ==>
      reply.result == Failed("failed to get number of containers", total)
    ensures InfoGuard(req).None? && total.Ok? && !running.Ok? ==>
      reply.result == Failed("failed to get number of running containers", running)
    ensures InfoGuard(req).None? && total.Ok? && running.Ok? && !ratio.Ok? ==>
      reply.result == Failed("failed to get uptime ratio", ratio)
    ensures InfoGuard(req).None? && total.Ok? && running.Ok? && ratio.Ok? && !(0.0 <= ratio.value <= 1.0) ==>
      reply.result == Err(RatioRangeError)
    ensures reply.result.Ok? <==>
      InfoGuard(req).None? && total.Ok? && running.Ok? && ratio.Ok? && 0.0 <= ratio.value <= 1.0
    ensures reply.result.Ok? ==>
      reply.result.value.numContainers == total.value &&
      reply.result.value.numRunningContainers == running.value &&
      reply.result.value.numStoppedContainers == StoppedCount(total.value, running.value) &&
      reply.result.value.meanUptimeRatio == ratio.value
  {
    var guard := InfoGuard(req);
    if guard.Some? then Reply(Err(guard.value), [])
    else
      var window := UptimeRatio(req.value.startTime, req.value.endTime);
      if !total.Ok? then Reply(Failed("failed to get number of containers", total), [CountAll])
      else if !running.Ok? then Reply(Failed("failed to get number of running containers", running), [CountAll, CountRunning])
      else if !ratio.Ok? then Reply(Failed("failed to get uptime ratio", ratio), [CountAll, CountRunning, window])
      else if ratio.value < 0.0 || ratio.value > 1.0 then Reply(Err(RatioRangeError), [CountAll, CountRunning, window])
      else
        var info := Info(total.value, running.value, StoppedCount(total.value, running.value), ratio.value);
        Reply(Ok(info), [CountAll, CountRunning, window])
  }

  /**
   * Against answers taken from one state of the store and the status log,
   * the summary never clamps and never rejects the ratio: whenever the window
   * holds events, it succeeds with stopped + running = total.
   */
  lemma InformationOverOneState(rows: map<nat, Container>, events: seq<StatusEvent>, start: int, end: int)
    requires 0 < start < end
    requires Window(events, start, end) != []
    ensures
      var reply := GetContainerInformation(Some(InfoRequest(start, end)),
        Ok(|rows|), Ok(|RunningKeys(rows)|), Ok(MeanUptimeRatio(Window(events, start, end)).value));
      reply.result.Ok? &&
      reply.result.value.numStoppedContainers + reply.result.value.numRunningContainers == reply.result.value.numContainers &&
      reply.queries == [CountAll, CountRunning, UptimeRatio(start, end)]
  {
    var keys := rows.Keys;
    assert RunningKeys(rows) <= keys;
    SubsetCard(RunningKeys(rows), keys);
    MeanUptimeRatioDefined(Window(events, start, end));
    MeanUptimeRatioBounds(Window(events, start, end));
  }

  /**
   * Wire entries made from a listing that names every stored row once carry
   * canonical decimal keys, name every stored row once, and nothing else.
   */
  lemma PbNamesOfTable(rows: map<nat, Container>, containers: seq<ContainerName>, names: seq<PbContainerName>)
    requires forall i :: 0 <= i < |containers| ==>
      containers[i].id in rows && rows[containers[i].id].containerName == containers[i].containerName
    requires forall k :: k in rows ==> ContainerName(k, rows[k].containerName) in containers
    requires forall i, j :: 0 <= i < j < |containers| ==> containers[i].id != containers[j].id
    requires |names| == |containers|
    requires forall i :: 0 <= i < |names| ==>
      names[i].id == NatToString(containers[i].id) && names[i].containerName == containers[i].containerName
    ensures forall i :: 0 <= i < |names| ==>
      AllDigits(names[i].id) && names[i].id == NatToString(DecimalValue(names[i].id)) &&
      DecimalValue(names[i].id) in rows && rows[DecimalValue(names[i].id)].containerName == names[i].containerName
    ensures forall k :: k in rows ==> PbContainerName(NatToString(k), rows[k].containerName) in names
    ensures forall i, j :: 0 <= i < j < |names| ==> names[i].id != names[j].id
  {
    forall i | 0 <= i < |names|
      ensures DecimalValue(names[i].id) == containers[i].id
    {
      NatToStringValue(containers[i].id);
    }
    forall k | k in rows
      ensures PbContainerName(NatToString(k), rows[k].containerName) in names
    {
      var j :| 0 <= j < |containers| && containers[j] == ContainerName(k, rows[k].containerName);
      assert names[j] == PbContainerName(NatToString(k), rows[k].containerName);
    }
    forall i, j | 0 <= i < j < |names|
      ensures names[i].id != names[j].id
    {
      NatToStringInjective(containers[i].id, containers[j].id);
    }
  }

  class GrpcServerHandler {
    const service: ContainerService

    ghost predicate Valid()
      reads this, service, service.repo
    {
      service.Valid()
    }

    constructor(service: ContainerService)
      requires service.Valid()
      ensures Valid() && this.service == service
    {
      this.service := service;
    }

    /**
     * Every container's key and name. `requestPresent` is false for a nil
     * request, which reaches no service call.
     */
    method GetAllContainers(requestPresent: bool, fails: bool) returns (r: Result<seq<PbContainerName>>)
      requires Valid()
      ensures !requestPresent ==> r == Err(NilRequestError)
      ensures requestPresent && fails ==>
        r == Failed<seq<ContainerName>, seq<PbContainerName>>("failed to retrieve containers",
               Wrapped("failed to retrieve container names", Result<seq<ContainerName>>.Err("failed to retrieve container names")))
      ensures r.Ok? <==> requestPresent && !fails
      ensures r.Ok? ==> |r.value| == |service.repo.rows|
      ensures r.Ok? ==> forall i :: 0 <= i < |r.value| ==>
        AllDigits(r.value[i].id) && r.value[i].id == NatToString(DecimalValue(r.value[i].id)) &&
        DecimalValue(r.value[i].id) in service.repo.rows &&
        service.repo.rows[DecimalValue(r.value[i].id)].containerName == r.value[i].containerName
      ensures r.Ok? ==> forall k :: k in service.repo.rows ==>
        PbContainerName(NatToString(k), service.repo.rows[k].containerName) in r.value
      ensures r.Ok? ==> forall i, j :: 0 <= i < j < |r.value| ==>
        r.value[i].id != r.value[j].id
    {
      if !requestPresent {
        return Err(NilRequestError);
      }
      var containers := service.GetAllContainers(fails);
      if !containers.Ok? {
        return Failed("failed to retrieve containers", containers);
      }
      var names := NamesToPb(containers.value);
      PbNamesOfTable(service.repo.rows, containers.value, names);
      r := Ok(names);
    }
  }
}
