/**
 * The `container_status` index: an append-only log of status events, and the
 * two uptime queries the repository runs against it.
 */
module StatusLog {
  import opened Outcomes
  import opened Text
  import opened ContainerModel
  import opened Uptime

  const StartAfterEndError: string := "start time cannot be after end time"

  /** What the index request of `AddContainerStatus` may run into. */
  datatype IndexFault = IndexOk | IndexRequestFails(cause: string) | IndexRejects(httpStatus: string)

  /** What a search request may run into. */
  datatype SearchFault = SearchOk | SearchRequestFails(cause: string) | SearchRejects(httpStatus: string) | DecodeFails(cause: string)

  /** The outcome of `AddContainerStatus`: the status check comes before the index is contacted. */
  function AddStatusVerdict(status: string, fault: IndexFault): (r: Result<()>)
    ensures r.Ok? <==> IsKnownStatus(status) && fault == IndexOk
    ensures !IsKnownStatus(status) ==> r == Err("invalid status: " + status)
    ensures !r.Panic?
  {
    if !IsKnownStatus(status) then Err("invalid status: " + status)
    else match fault
      case IndexOk => Ok(())
      case IndexRequestFails(cause) => Err("index request failed: " + cause)
      case IndexRejects(httpStatus) => Err("elasticsearch error: " + httpStatus)
  }

  class StatusIndex {
    /** The documents of the index, oldest first. */
    var events: seq<StatusEvent>

    constructor()
      ensures events == []
    {
      events := [];
    }

    /** Index one `{id, status, timestamp}` document; no deduplication. */
    method AddContainerStatus(id: nat, status: string, now: int, fault: IndexFault) returns (r: Result<()>)
      modifies this
      ensures r == AddStatusVerdict(status, fault)
      ensures r.Ok? ==> events == old(events) + [StatusEvent(id, status, now)]
      ensures !r.Ok? ==> events == old(events)
    {
      r := AddStatusVerdict(status, fault);
      if r.Ok? {
        events := events + [StatusEvent(id, status, now)];
      }
    }

    /**
     * The mean uptime ratio over the containers with events in [start, end].
     * With no such container the aggregation has no value, and reading it panics.
     */
    method GetContainerUptimeRatio(start: int, end: int, fault: SearchFault) returns (r: Result<real>)
      ensures start > end ==> r == Err(StartAfterEndError)
      ensures start <= end && fault.SearchRequestFails? ==> r == Err(fault.cause)
      ensures start <= end && fault.SearchRejects? ==> r == Err("search error: " + fault.httpStatus)
      ensures start <= end && fault.DecodeFails? ==> r == Err("decode error: " + fault.cause)
      ensures start <= end && fault == SearchOk ==>
        (r.Panic? <==> Window(events, start, end) == []) &&
        (r.Ok? <==> Window(events, start, end) != []) &&
        (r.Ok? ==> r.value == MeanUptimeRatio(Window(events, start, end)).value)
      ensures r.Ok? ==> 0.0 <= r.value <= 1.0
    {
      if start > end {
        return Err(StartAfterEndError);
      }
      match fault
      case SearchRequestFails(cause) => r := Err(cause);
      case SearchRejects(httpStatus) => r := Err("search error: " + httpStatus);
      case DecodeFails(cause) => r := Err("decode error: " + cause);
      case SearchOk =>
        var window := Window(events, start, end);
        MeanUptimeRatioDefined(window);
        var avg := MeanUptimeRatio(window);
        if avg.None? {
          r := Panic;
        } else {
          MeanUptimeRatioBounds(window);
          r := Ok(avg.value);
        }
    }

    /**
     * Uptime per container and in total over [start, end]: one minute per
     * `running` event. The response is decoded without a check, so a body that
     * does not decode panics when the buckets are read.
     */
    method GetContainerUptimeDuration(start: int, end: int, fault: SearchFault) returns (r: Result<UptimeDetails>)
      ensures start > end ==> r == Err(StartAfterEndError)
      ensures start <= end && fault.SearchRequestFails? ==> r == Err(fault.cause)
      ensures start <= end && fault.SearchRejects? ==> r == Err("search error: " + fault.httpStatus)
      ensures start <= end && fault.DecodeFails? ==> r == Panic
      ensures start <= end && fault == SearchOk ==> r.Ok?
      ensures r.Ok? ==> r.value.totalUptime == |RunningOnly(Window(events, start, end))| * Minute
      ensures r.Ok? ==> r.value.perContainerUptime == PerMap(RunningBuckets(Window(events, start, end)))
      ensures r.Ok? ==> MapSum(r.value.perContainerUptime) == r.value.totalUptime
      ensures r.Ok? ==>
        var ids := IdsOf(RunningOnly(Window(events, start, end)));
        |r.value.perContainerUptime| == |Distinct(ids)| &&
        forall x :: x in ids ==>
          NatToString(x) in r.value.perContainerUptime &&
          r.value.perContainerUptime[NatToString(x)] == Count(ids, x) * Minute
    {
      if start > end {
        return Err(StartAfterEndError);
      }
      match fault
      case SearchRequestFails(cause) => r := Err(cause);
      case SearchRejects(httpStatus) => r := Err("search error: " + httpStatus);
      case DecodeFails(_) => r := Panic;
      case SearchOk =>
        var window := Window(events, start, end);
        var buckets := RunningBuckets(window);
        var details := FoldBuckets(buckets);
        RunningBucketsTotal(window);
        RunningBucketsDistinct(window);
        PerMapOfDistinctKeys(buckets);
        var ids := IdsOf(RunningOnly(window));
        forall x | x in ids
          ensures NatToString(x) in details.perContainerUptime
          ensures details.perContainerUptime[NatToString(x)] == Count(ids, x) * Minute
        {
          var d := Distinct(ids);
          assert x in d;
          var j :| 0 <= j < |d| && d[j] == x;
          assert buckets[j] == Bucket(x, Count(ids, x));
        }
        r := Ok(details);
    }
  }
}
