/**
 * The status-ingestion consumer: a read loop that hands every message it
 * reads to a per-message step, which decodes the message, updates the
 * container's status through the service and, only if that worked, records
 * a status event.
 */
module Ingestion {
  import opened Outcomes
  import opened ContainerModel
  import opened Listing
  import opened Repository
  import opened StatusLog
  import opened Runtime
  import opened Service

  /** A message body: either it does not decode, or it names a container and its new state. */
  datatype Payload = Malformed | StatusChange(id: nat, containerName: string, running: bool)

  /** One attempt to read from the topic. */
  datatype ReadResult = ReadFailed(cause: string) | Delivered(payload: Payload)

  /** How the per-message step ended. */
  datatype Handled =
    | Dropped                      // the body did not decode; no service call
    | UpdateFailed(msg: string)    // the update failed; no status event
    | StatusFailed(msg: string)    // updated, but the status event was not recorded
    | Recorded                     // updated and recorded
    | Crashed                      // a panic in the update; unrecovered, it ends the process

  const CanceledError: string := "context canceled"

  /** `true` means running, `false` stopped. */
  function StatusText(running: bool): (s: string)
    ensures IsKnownStatus(s)
    ensures s == StatusRunning <==> running
  {
    if running then StatusRunning else StatusStopped
  }

  /** The update a status message asks for: the status key and nothing else. */
  function StatusPatch(running: bool): (p: PatchMap)
    ensures p.Keys == {"status"} && p["status"] == Str(StatusText(running))
  {
    map["status" := Str(StatusText(running))]
  }

  /**
   * A status-only patch never renames, never replaces the image, and needs
   * at most one runtime call: a start for `running`, a stop for `stopped`,
   * none when the container already has that status.
   */
  lemma StatusPatchPlan(c: Container, running: bool)
    ensures !RenameRequested(StatusPatch(running))
    ensures ImageChange(c, StatusPatch(running)).None?
    ensures UpdatePlan(c, StatusPatch(running)) ==
      if c.status == StatusText(running) then []
      else if running then [StartExisting(c.containerId)]
      else [Stop(c.containerId)]
  {
  }

  /** A status-only patch sets the status, refreshes `updated_at` and keeps every other column. */
  lemma StatusPatchApplies(c: Container, running: bool, now: int)
    ensures ApplyPatch(c, StatusPatch(running), now) == Some(c.(status := StatusText(running), updatedAt := now))
  {
    var p := StatusPatch(running);
    assert PatchApplicable(p);
  }

  /**
   * What the service's update does with a status-only patch on a stored row:
   * the patch is stored as given, and a successful write sets the status and
   * refreshes `updated_at`.
   */
  lemma StatusUpdateVerdict(rows: map<nat, Container>, id: nat, running: bool, now: int, fault: TxFault, k0: nat)
    requires id in rows
    ensures !RenameRequested(StatusPatch(running))
    ensures |UpdatePlan(rows[id], StatusPatch(running))| <= 1
    ensures StoredPatch(rows[id], StatusPatch(running), k0) == StatusPatch(running)
    ensures var v := UpdateVerdict(rows, id, StatusPatch(running), now, fault);
      v.Ok? ==> v.value == rows[id].(status := StatusText(running), updatedAt := now)
  {
    StatusPatchPlan(rows[id], running);
    StatusPatchApplies(rows[id], running, now);
  }

  /** The messages a read loop hands on, in the order they were read; read errors hand on nothing. */
  function DeliveredPayloads(results: seq<ReadResult>): (ps: seq<Payload>)
    ensures |ps| <= |results|
  {
    if results == [] then []
    else
      var last := results[|results| - 1];
      DeliveredPayloads(results[..|results| - 1]) + (if last.Delivered? then [last.payload] else [])
  }

  function CountFailedReads(results: seq<ReadResult>): nat
  {
    if results == [] then 0 else CountFailedReads(results[..|results| - 1]) + (if results[|results| - 1].ReadFailed? then 1 else 0)
  }

  /** Every read either hands on exactly one message or is a failed read. */
  lemma {:induction false} EveryReadAccounted(results: seq<ReadResult>)
    ensures |DeliveredPayloads(results)| + CountFailedReads(results) == |results|
  {
    if results != [] {
      EveryReadAccounted(results[..|results| - 1]);
    }
  }

  /**
   * The read loop. `results` are the reader's successive results and the
   * context is cancelled before read `cancelAt`; once the results run out the
   * reader blocks until the cancellation. Returns the dispatched messages and
   * the context's error.
   */
  method StartConsume(results: seq<ReadResult>, cancelAt: nat) returns (dispatched: seq<Payload>, err: string)
    ensures dispatched == DeliveredPayloads(results[..Min(cancelAt, |results|)])
    ensures err == CanceledError
  {
    dispatched := [];
    var i := 0;
    while true
      invariant 0 <= i <= Min(cancelAt, |results|)
      invariant dispatched == DeliveredPayloads(results[..i])
      decreases Min(cancelAt, |results|) - i
    {
      if i == cancelAt || i == |results| {
        return dispatched, CanceledError;
      }
      var read := results[i];
      assert results[..i + 1][..i] == results[..i];
      i := i + 1;
      if read.ReadFailed? {
        continue;
      }
      dispatched := dispatched + [read.payload];
    }
  }

  /** Closing hands back the reader's close error unchanged. */
  function Close(readerCloseError: Option<string>): (r: Option<string>)
    ensures r.None? <==> readerCloseError.None?
    ensures r.Some? ==> r.value == readerCloseError.value
  {
    readerCloseError
  }

  /** The clock reading and the failures one message's handling meets. */
  datatype Conditions = Conditions(now: int, lookupFails: bool, fault: TxFault, indexFault: IndexFault)

  /** The status events a run of handled messages adds to the index, in message order. */
  function RecordedEvents(payloads: seq<Payload>, outcomes: seq<Handled>, conditions: nat -> Conditions): (events: seq<StatusEvent>)
    requires |outcomes| == |payloads|
    requires forall i :: 0 <= i < |outcomes| && outcomes[i] == Recorded ==> payloads[i].StatusChange?
    ensures |events| <= |outcomes|
    ensures forall e :: e in events ==> IsKnownStatus(e.status)
  {
    if outcomes == [] then []
    else
      var n := |outcomes| - 1;
      RecordedEvents(payloads[..n], outcomes[..n], conditions) +
        (if outcomes[n] == Recorded
         then [StatusEvent(payloads[n].id, StatusText(payloads[n].running), conditions(n).now)]
         else [])
  }

  /** Handling one more message adds its event, if it was recorded, after the earlier ones. */
  lemma RecordedEventsSnoc(payloads: seq<Payload>, outcomes: seq<Handled>, conditions: nat -> Conditions)
    requires |outcomes| == |payloads| > 0
    requires forall i :: 0 <= i < |outcomes| && outcomes[i] == Recorded ==> payloads[i].StatusChange?
    ensures var n := |outcomes| - 1;
      RecordedEvents(payloads, outcomes, conditions) ==
        RecordedEvents(payloads[..n], outcomes[..n], conditions) +
        (if outcomes[n] == Recorded
         then [StatusEvent(payloads[n].id, StatusText(payloads[n].running), conditions(n).now)]
         else [])
  {
  }

  /**
   * What a run of handled messages has done so far: one outcome per message,
   * Dropped exactly for the malformed ones, Recorded only for status changes,
   * no crash before the last message, and the index grown by the recorded
   * events in message order.
   */
  ghost predicate HandledSoFar(payloads: seq<Payload>, outcomes: seq<Handled>, conditions: nat -> Conditions,
                               events0: seq<StatusEvent>, events: seq<StatusEvent>)
  {
    |outcomes| == |payloads| &&
    (forall j :: 0 <= j < |payloads| ==> (outcomes[j] == Dropped <==> payloads[j].Malformed?)) &&
    (forall j :: 0 <= j < |payloads| && outcomes[j] == Recorded ==> payloads[j].StatusChange?) &&
    (forall j :: 0 <= j < |outcomes| - 1 ==> outcomes[j] != Crashed) &&
    events == events0 + RecordedEvents(payloads, outcomes, conditions)
  }

  /** Handling message `|payloads|` under its conditions, after a run that has not crashed, extends the run by one. */
  lemma HandledStep(payloads: seq<Payload>, outcomes: seq<Handled>, conditions: nat -> Conditions,
                    events0: seq<StatusEvent>, events: seq<StatusEvent>, payload: Payload, handled: Handled)
    requires HandledSoFar(payloads, outcomes, conditions, events0, events)
    requires outcomes == [] || outcomes[|outcomes| - 1] != Crashed
    requires handled == Dropped <==> payload.Malformed?
    requires handled == Recorded ==> payload.StatusChange?
    ensures HandledSoFar(payloads + [payload], outcomes + [handled], conditions, events0,
      events + (if handled == Recorded then [StatusEvent(payload.id, StatusText(payload.running), conditions(|payloads|).now)] else []))
  {
    var ps, os := payloads + [payload], outcomes + [handled];
    assert ps[..|payloads|] == payloads;
    assert os[..|payloads|] == outcomes;
    RecordedEventsSnoc(ps, os, conditions);
  }

  /** A run over the first `n` messages states its account message by message. */
  lemma HandledPrefix(payloads: seq<Payload>, n: nat, outcomes: seq<Handled>, conditions: nat -> Conditions,
                      events0: seq<StatusEvent>, events: seq<StatusEvent>)
    requires n <= |payloads|
    requires HandledSoFar(payloads[..n], outcomes, conditions, events0, events)
    ensures |outcomes| == n
    ensures forall i :: 0 <= i < n ==> (outcomes[i] == Dropped <==> payloads[i].Malformed?)
    ensures forall i :: 0 <= i < n && outcomes[i] == Recorded ==> payloads[i].StatusChange?
    ensures forall i :: 0 <= i < n - 1 ==> outcomes[i] != Crashed
    ensures events == events0 + RecordedEvents(payloads[..n], outcomes, conditions)
  {
    assert forall i :: 0 <= i < n ==> payloads[..n][i] == payloads[i];
  }

  class KafkaConsumerHandler {
    const service: ContainerService

    ghost predicate Valid()
      reads this, service, service.repo
    {
      service.Valid()
    }

    constructor(service: ContainerService)
      requires service.Valid()
      ensures Valid() && this.service == service
    {
      this.service := service;
    }

    /**
     * The status update a message asks for, made through the service with a
     * patch holding only the status key.
     */
    method UpdateStatus(id: nat, running: bool, now: int, lookupFails: bool, fault: TxFault) returns (r: Result<Container>)
      requires Valid()
      modifies service.repo, service.docker
      ensures Valid()
      ensures lookupFails || id !in old(service.repo.rows) ==>
        r.Err? && service.docker.calls == old(service.docker.calls)
      ensures !r.Ok? ==> service.repo.rows == old(service.repo.rows)
      ensures !lookupFails && id in old(service.repo.rows) ==>
        service.docker.calls == old(service.docker.calls) + UpdatePlan(old(service.repo.rows)[id], StatusPatch(running))
      ensures r.Ok? ==>
        id in old(service.repo.rows) &&
        var c := old(service.repo.rows)[id];
        r.value == c.(status := StatusText(running), updatedAt := now) &&
        service.repo.rows == old(service.repo.rows)[id := r.value] &&
        service.docker.calls == old(service.docker.calls) + UpdatePlan(c, StatusPatch(running))
    {
      var patch := new Patch(StatusPatch(running));
      if id in service.repo.rows {
        StatusUpdateVerdict(service.repo.rows, id, running, now, fault, |service.docker.calls|);
      } else {
        assert !RenameRequested(StatusPatch(running));
      }
      r := service.UpdateContainer(id, patch, now, lookupFails, fault);
    }

    /**
     * The per-message step: decode, update the status through the service
     * (which also starts or stops the container), then record the event; a
     * failure to record is only logged.
     */
    method HandleMessage(payload: Payload, now: int, lookupFails: bool, fault: TxFault, indexFault: IndexFault)
      returns (r: Handled)
      requires Valid()
      modifies service.repo, service.docker, service.statusIndex
      ensures Valid()
      ensures r == Dropped <==> payload.Malformed?
      ensures payload.Malformed? ==>
        service.repo.rows == old(service.repo.rows) &&
        service.docker.calls == old(service.docker.calls) &&
        service.statusIndex.events == old(service.statusIndex.events)
      ensures payload.StatusChange? && (lookupFails || payload.id !in old(service.repo.rows)) ==>
        r.UpdateFailed? && service.docker.calls == old(service.docker.calls) &&
        service.repo.rows == old(service.repo.rows)
      ensures r.UpdateFailed? || r.Crashed? ==>
        service.repo.rows == old(service.repo.rows) &&
        service.statusIndex.events == old(service.statusIndex.events)
      ensures r.StatusFailed? || r == Recorded ==>
        payload.StatusChange? && payload.id in old(service.repo.rows) &&
        var c := old(service.repo.rows)[payload.id];
        service.repo.rows == old(service.repo.rows)[payload.id := c.(status := StatusText(payload.running), updatedAt := now)] &&
        service.docker.calls == old(service.docker.calls) + UpdatePlan(c, StatusPatch(payload.running))
      ensures r == Recorded ==>
        service.statusIndex.events == old(service.statusIndex.events) + [StatusEvent(payload.id, StatusText(payload.running), now)]
      ensures r.StatusFailed? ==> service.statusIndex.events == old(service.statusIndex.events)
      ensures r.StatusFailed? || r == Recorded ==> (r == Recorded <==> indexFault == IndexOk)
    {
      if payload.Malformed? {
        return Dropped;
      }
      var updated := UpdateStatus(payload.id, payload.running, now, lookupFails, fault);
      if updated.Panic? {
        return Crashed;
      }
      if updated.Err? {
        return UpdateFailed(updated.msg);
      }
      var added := service.AddContainerStatus(payload.id, StatusText(payload.running), now, indexFault);
      if !added.Ok? {
        return StatusFailed(added.msg);
      }
      r := Recorded;
    }

    /** The per-message step under given conditions, as the run of a whole stream sees it. */
    method HandleUnder(payload: Payload, cond: Conditions) returns (r: Handled)
      requires Valid()
      modifies service.repo, service.docker, service.statusIndex
      ensures Valid()
      ensures r == Dropped <==> payload.Malformed?
      ensures r == Recorded ==> payload.StatusChange?
      ensures service.statusIndex.events == old(service.statusIndex.events) +
        (if r == Recorded then [StatusEvent(payload.id, StatusText(payload.running), cond.now)] else [])
    {
      r := HandleMessage(payload, cond.now, cond.lookupFails, cond.fault, cond.indexFault);
    }

    /** Handle the next message of a run that has not crashed yet. */
    method HandleNext(payloads: seq<Payload>, conditions: nat -> Conditions, outcomes: seq<Handled>, ghost events0: seq<StatusEvent>)
      returns (handled: Handled)
      requires Valid()
      requires |outcomes| < |payloads|
      requires outcomes == [] || outcomes[|outcomes| - 1] != Crashed
      requires HandledSoFar(payloads[..|outcomes|], outcomes, conditions, events0, service.statusIndex.events)
      modifies service.repo, service.docker, service.statusIndex
      ensures Valid()
      ensures HandledSoFar(payloads[..|outcomes| + 1], outcomes + [handled], conditions, events0, service.statusIndex.events)
    {
      var i := |outcomes|;
      ghost var events := service.statusIndex.events;
      handled := HandleUnder(payloads[i], conditions(i));
      HandledStep(payloads[..i], outcomes, conditions, events0, events, payloads[i], handled);
      assert payloads[..i + 1] == payloads[..i] + [payloads[i]];
    }

    /**
     * Hand the dispatched messages to the per-message step, one after the
     * other; message i meets `conditions(i)`. A panic in the step is not
     * recovered, so it ends the run with the message that raised it.
     */
    method HandleAll(payloads: seq<Payload>, conditions: nat -> Conditions) returns (outcomes: seq<Handled>)
      requires Valid()
      modifies service.repo, service.docker, service.statusIndex
      ensures Valid()
      ensures |outcomes| <= |payloads|
      ensures |outcomes| < |payloads| ==> outcomes != [] && outcomes[|outcomes| - 1] == Crashed
      ensures forall i :: 0 <= i < |outcomes| - 1 ==> outcomes[i] != Crashed
      ensures forall i :: 0 <= i < |outcomes| ==> (outcomes[i] == Dropped <==> payloads[i].Malformed?)
      ensures forall i :: 0 <= i < |outcomes| && outcomes[i] == Recorded ==> payloads[i].StatusChange?
      ensures service.statusIndex.events ==
        old(service.statusIndex.events) + RecordedEvents(payloads[..|outcomes|], outcomes, conditions)
    {
      outcomes := [];
      var crashed := false;
      while |outcomes| < |payloads| && !crashed
        invariant |outcomes| <= |payloads|
        invariant Valid()
        invariant HandledSoFar(payloads[..|outcomes|], outcomes, conditions, old(service.statusIndex.events), service.statusIndex.events)
        invariant crashed <==> outcomes != [] && outcomes[|outcomes| - 1] == Crashed
        decreases |payloads| - |outcomes|
      {
        var handled := HandleNext(payloads, conditions, outcomes, old(service.statusIndex.events));
        outcomes := outcomes + [handled];
        crashed := handled == Crashed;
      }
      HandledPrefix(payloads, |outcomes|, outcomes, conditions, old(service.statusIndex.events), service.statusIndex.events);
    }
  }
}
