/**
 * The container runtime the service drives: four operations, recorded in a
 * call log in the order they are issued. Which calls fail is fixed up front
 * by the `failing` oracle, keyed by the position of the call in the log.
 */
module Runtime {
  import opened Outcomes
  import opened Text

  /** One request to the runtime. */
  datatype Call =
    | Start(name: string, image: string)
    | Stop(runtimeId: string)
    | Remove(runtimeId: string)
    | StartExisting(runtimeId: string)

  /** The runtime id handed out by the start call at log position k: fresh per call. */
  function IdFor(k: nat): (id: string)
    ensures |id| > 4 && id[..4] == "ctr-"
  {
    "ctr-" + NatToString(k)
  }

  /** Different start calls get different runtime ids. */
  lemma IdForInjective(j: nat, k: nat)
    requires IdFor(j) == IdFor(k)
    ensures j == k
  {
    assert IdFor(j)[4..] == NatToString(j);
    assert IdFor(k)[4..] == NatToString(k);
    NatToStringValue(j);
    NatToStringValue(k);
  }

  class DockerRuntime {
    /** Every call issued so far, oldest first. */
    var calls: seq<Call>
    /** The error text of each call position that fails. */
    const failing: map<nat, string>

    constructor(failing: map<nat, string>)
      ensures calls == [] && this.failing == failing
    {
      calls := [];
      this.failing := failing;
    }

    /** Create and start a container from an image; yields its runtime id. */
    method StartContainer(name: string, image: string) returns (r: Result<string>)
      modifies this
      ensures calls == old(calls) + [Start(name, image)]
      ensures |old(calls)| in failing ==> r == Err(failing[|old(calls)|])
      ensures |old(calls)| !in failing ==> r == Ok(IdFor(|old(calls)|))
    {
      var k := |calls|;
      calls := calls + [Start(name, image)];
      r := if k in failing then Err(failing[k]) else Ok(IdFor(k));
    }

    /** Stop a running container. */
    method StopContainer(runtimeId: string) returns (r: Result<()>)
      modifies this
      ensures calls == old(calls) + [Stop(runtimeId)]
      ensures r == Outcome(|old(calls)|)
    {
      r := Outcome(|calls|);
      calls := calls + [Stop(runtimeId)];
    }

    /** Remove a container. */
    method RemoveContainer(runtimeId: string) returns (r: Result<()>)
      modifies this
      ensures calls == old(calls) + [Remove(runtimeId)]
      ensures r == Outcome(|old(calls)|)
    {
      r := Outcome(|calls|);
      calls := calls + [Remove(runtimeId)];
    }

    /** Start a container that already exists. */
    method StartExistingContainer(runtimeId: string) returns (r: Result<()>)
      modifies this
      ensures calls == old(calls) + [StartExisting(runtimeId)]
      ensures r == Outcome(|old(calls)|)
    {
      r := Outcome(|calls|);
      calls := calls + [StartExisting(runtimeId)];
    }

    /** The outcome of the call at log position k. */
    function Outcome(k: nat): (r: Result<()>)
      ensures r.Ok? <==> k !in failing
      ensures k in failing ==> r == Err(failing[k])
    {
      if k in failing then Err(failing[k]) else Ok(())
    }
  }
}
