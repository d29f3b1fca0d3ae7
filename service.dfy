/**
 * The lifecycle orchestrator: each operation drives the container runtime and
 * the metadata table in a fixed order, stops at the first failure and, apart
 * from the one compensating stop in `CreateContainer`, undoes nothing.
 */
module Service {
  import opened Outcomes
  import opened Text
  import opened ContainerModel
  import opened Listing
  import opened Repository
  import opened Uptime
  import opened StatusLog
  import opened Runtime

  const NameUpdateError: string := "updating container name is not allowed"

  /** The caller's update map; `UpdateContainer` adds the new runtime id to it in place. */
  class Patch {
    var entries: PatchMap

    constructor(entries: PatchMap)
      ensures this.entries == entries
    {
      this.entries := entries;
    }
  }

  // ------------------------------------------------------------- updates

  /** As written, the name guard looks only for the column spelling of the key. */
  predicate NameGuardAsWritten(p: PatchMap)
  {
    "container_name" in p
  }

  /** The patch would rename the container: the store accepts the column name and the field name alike. */
  predicate RenameRequested(p: PatchMap)
  {
    "container_name" in p || "ContainerName" in p
  }

  /** A non-empty image text that differs from the current image. */
  function ImageChange(c: Container, p: PatchMap): (image: Option<string>)
    ensures image.Some? ==> image.value != "" && image.value != c.imageName
    ensures image.Some? ==> "image_name" in p && p["image_name"] == Str(image.value)
    ensures image.None? ==> "image_name" !in p || !p["image_name"].Str? || p["image_name"].s in {"", c.imageName}
  {
    if "image_name" in p && p["image_name"].Str? && p["image_name"].s != "" && p["image_name"].s != c.imageName
    then Some(p["image_name"].s)
    else None
  }

  /** The runtime call a status change needs: only `running` and `stopped` have one. */
  function StatusCall(c: Container, p: PatchMap): Option<Call>
  {
    if "status" in p && p["status"].Str? && p["status"].s != "" && p["status"].s != c.status then
      if p["status"].s == StatusRunning && c.status != StatusRunning then Some(StartExisting(c.containerId))
      else if p["status"].s == StatusStopped && c.status != StatusStopped then Some(Stop(c.containerId))
      else None
    else None
  }

  /** Replacing the image: stop, remove, then start under the same name from the new image. */
  function RestartCalls(c: Container, image: string): seq<Call>
  {
    [Stop(c.containerId), Remove(c.containerId), Start(c.containerName, image)]
  }

  /** The context each failure of an image replacement is reported under. */
  const RestartContexts: seq<string> :=
    ["failed to update Docker container image",
     "failed to remove Docker container before updating image",
     "failed to start Docker container with new image"]

  /** The context a failed status call is reported under. */
  function StatusContext(call: Call): string
  {
    if call.StartExisting? then "failed to start Docker container" else "failed to stop Docker container"
  }

  function StatusCalls(c: Container, p: PatchMap): seq<Call>
  {
    if StatusCall(c, p).Some? then [StatusCall(c, p).value] else []
  }

  /**
   * The runtime calls of an update, in order: for a new image stop, remove and
   * start under the new image; then the status call, still on the record's
   * original runtime id.
   */
  function UpdatePlan(c: Container, p: PatchMap): seq<Call>
  {
    ImageCalls(c, p) + StatusCalls(c, p)
  }

  /** The context each call of the plan reports its failure under. */
  function UpdateContexts(c: Container, p: PatchMap): (contexts: seq<string>)
    ensures |contexts| == |UpdatePlan(c, p)|
  {
    (if ImageChange(c, p).Some? then RestartContexts else []) +
    (if StatusCall(c, p).Some? then [StatusContext(StatusCall(c, p).value)] else [])
  }

  /** The patch the store receives once the runtime calls have succeeded. */
  function StoredPatch(c: Container, p: PatchMap, k0: nat): PatchMap
  {
    if ImageChange(c, p).Some? then p["ContainerID" := Str(IdFor(k0 + 2))] else p
  }

  /** The restart calls an update needs: none, or stop, remove and start for a new image. */
  function ImageCalls(c: Container, p: PatchMap): seq<Call>
  {
    if ImageChange(c, p).Some? then RestartCalls(c, ImageChange(c, p).value) else []
  }

  /**
   * The runtime calls an update makes when the calls from log position `k0`
   * on fail as `failing` says: the restart calls up to the first failure;
   * after a complete restart, the status call as well.
   */
  function AlignCalls(c: Container, p: PatchMap, k0: nat, failing: map<nat, string>): seq<Call>
  {
    var restart := ImageCalls(c, p);
    var cut := FirstFailure(|restart|, k0, failing);
    if cut.Some? then restart[..cut.value + 1] else restart + StatusCalls(c, p)
  }

  /** How bringing the runtime in line ends: the first failing call's error under its context, or success. */
  function AlignOutcome(c: Container, p: PatchMap, k0: nat, failing: map<nat, string>): Result<()>
  {
    var restart := ImageCalls(c, p);
    var cut := FirstFailure(|restart|, k0, failing);
    if cut.Some? then Err(RestartContexts[cut.value] + ": " + failing[k0 + cut.value])
    else if StatusCall(c, p).Some? && k0 + |restart| in failing then
      Err(StatusContext(StatusCall(c, p).value) + ": " + failing[k0 + |restart|])
    else Ok(())
  }

  /**
   * The calls made are the plan up to and including its first failing call,
   * or the whole plan; a failure is reported under that call's context.
   */
  lemma AlignFollowsPlan(c: Container, p: PatchMap, k0: nat, failing: map<nat, string>)
    ensures var plan := UpdatePlan(c, p);
      var failure := FirstFailure(|plan|, k0, failing);
      (failure.Some? ==>
        AlignCalls(c, p, k0, failing) == plan[..failure.value + 1] &&
        AlignOutcome(c, p, k0, failing) == Err(UpdateContexts(c, p)[failure.value] + ": " + failing[k0 + failure.value])) &&
      (failure.None? ==>
        AlignCalls(c, p, k0, failing) == plan && AlignOutcome(c, p, k0, failing) == Ok(())) &&
      (FirstFailure(|ImageCalls(c, p)|, k0, failing).Some? <==> failure.Some? && failure.value < |ImageCalls(c, p)|)
  {
    var plan := UpdatePlan(c, p);
    var restart := ImageCalls(c, p);
    var cut := FirstFailure(|restart|, k0, failing);
    if cut.Some? {
      assert plan[..cut.value + 1] == restart[..cut.value + 1];
      FirstFailureIs(|plan|, k0, failing, cut.value);
    } else if StatusCall(c, p).Some? && k0 + |restart| in failing {
      assert plan[..|restart| + 1] == plan;
      FirstFailureIs(|plan|, k0, failing, |restart|);
    } else {
      FirstFailureNone(|plan|, k0, failing);
    }
  }

  /** The first of `n` calls, issued from log position `k0` on, that fails. */
  function FirstFailure(n: nat, k0: nat, failing: map<nat, string>): (j: Option<nat>)
    ensures j.Some? ==> j.value < n && k0 + j.value in failing
    ensures j.Some? ==> forall k :: k0 <= k < k0 + j.value ==> k !in failing
    ensures j.None? ==> forall k :: k0 <= k < k0 + n ==> k !in failing
  {
    FirstFailureFrom(0, n, k0, failing)
  }

  function FirstFailureFrom(i: nat, n: nat, k0: nat, failing: map<nat, string>): (j: Option<nat>)
    ensures j.Some? ==> i <= j.value < n && k0 + j.value in failing
    ensures j.Some? ==> forall k :: k0 + i <= k < k0 + j.value ==> k !in failing
    ensures j.None? ==> forall k :: k0 + i <= k < k0 + n ==> k !in failing
    decreases n - i
  {
    if i >= n then None
    else if k0 + i in failing then Some(i)
    else FirstFailureFrom(i + 1, n, k0, failing)
  }

  lemma FirstFailureIs(n: nat, k0: nat, failing: map<nat, string>, j: nat)
    requires j < n && k0 + j in failing
    requires forall k :: k0 <= k < k0 + j ==> k !in failing
    ensures FirstFailure(n, k0, failing) == Some(j)
  {
  }

  lemma FirstFailureNone(n: nat, k0: nat, failing: map<nat, string>)
    requires forall k :: k0 <= k < k0 + n ==> k !in failing
    ensures FirstFailure(n, k0, failing) == None
  {
  }

  // ---------------------------------------------------------------- import

  /** What the row loop of an import has gathered. */
  datatype ImportScan = ImportScan(toCreate: seq<NewContainer>, errors: seq<string>, calls: seq<Call>)

  /**
   * The row loop over the data rows (spreadsheet row i + 2 for data row i):
   * short rows and rows with an empty name or image are rejected, every other
   * row starts a container, and a start failure is a row error too.
   */
  function ScanRows(data: seq<seq<string>>, k0: nat, failing: map<nat, string>): ImportScan
  {
    if data == [] then ImportScan([], [], [])
    else
      var prev := ScanRows(data[..|data| - 1], k0, failing);
      var row := data[|data| - 1];
      var rowTag := "Row " + NatToString(|data| + 1) + ": ";
      if |row| < 2 then prev.(errors := prev.errors + [rowTag + "Not enough columns"])
      else if row[0] == "" || row[1] == "" then prev.(errors := prev.errors + [rowTag + "Missing required fields"])
      else
        var k := k0 + |prev.calls|;
        var calls := prev.calls + [Start(row[0], row[1])];
        if k in failing then
          prev.(errors := prev.errors + [rowTag + "Failed to start container - " + failing[k]], calls := calls)
        else
          prev.(toCreate := prev.toCreate + [NewContainer(IdFor(k), row[0], row[1], StatusRunning)], calls := calls)
  }

  /**
   * Every data row ends up either to be created or as exactly one error; each
   * container to create comes from a complete row and is `running`; the
   * runtime sees one start per complete row and nothing else.
   */
  lemma {:induction false} ScanRowsAccounts(data: seq<seq<string>>, k0: nat, failing: map<nat, string>)
    ensures var scan := ScanRows(data, k0, failing);
      |scan.toCreate| + |scan.errors| == |data| &&
      |scan.toCreate| <= |scan.calls| <= |data| &&
      (forall n :: n in scan.toCreate ==> n.containerName != "" && n.imageName != "" && n.status == StatusRunning) &&
      (forall i :: 0 <= i < |scan.calls| ==> scan.calls[i].Start?)
  {
    if data != [] {
      ScanRowsAccounts(data[..|data| - 1], k0, failing);
    }
  }

  /** `"<name> (ID: <id>)"`: a container the import stored. */
  function SuccessItem(c: Container): string
  {
    c.containerName + " (ID: " + NatToString(c.id) + ")"
  }

  /** `"<name> (repository error)"`: a container the store did not take. */
  function RepositoryFailItem(n: NewContainer): string
  {
    n.containerName + " (repository error)"
  }

  function RepositoryFailItems(ns: seq<NewContainer>): (r: seq<string>)
    ensures |r| == |ns|
    ensures forall i :: 0 <= i < |ns| ==> r[i] == RepositoryFailItem(ns[i])
  {
    if ns == [] then [] else RepositoryFailItems(ns[..|ns| - 1]) + [RepositoryFailItem(ns[|ns| - 1])]
  }

  /** The summary of a batch the store accepted: stored items first counted, parse errors listed before store failures. */
  method AssembleImportResult(errors: seq<string>, created: seq<Container>, failed: seq<NewContainer>)
    returns (result: ImportResult)
    ensures result.successfulCount == |result.successfulItems| == |created|
    ensures forall i :: 0 <= i < |created| ==> result.successfulItems[i] == SuccessItem(created[i])
    ensures result.failedCount == |result.failedItems| == |errors| + |failed|
    ensures result.failedItems == errors + RepositoryFailItems(failed)
  {
    var successful := new string[|created|];
    for i := 0 to |created|
      invariant forall j :: 0 <= j < i ==> successful[j] == SuccessItem(created[j])
    {
      successful[i] := SuccessItem(created[i]);
    }
    var failedItems := errors;
    for i := 0 to |failed|
      invariant failedItems == errors + RepositoryFailItems(failed[..i])
    {
      assert failed[..i + 1][..i] == failed[..i];
      failedItems := failedItems + [RepositoryFailItem(failed[i])];
    }
    assert failed[..|failed|] == failed;
    result := ImportResult(|created|, successful[..], |failed| + |errors|, failedItems);
  }

  /** The summary when the store rejected the whole batch: every container to create counts as failed. */
  method RepositoryErrorResult(errors: seq<string>, toCreate: seq<NewContainer>) returns (result: ImportResult)
    ensures result.successfulCount == 0 && result.successfulItems == []
    ensures result.failedCount == |toCreate|
    ensures result.failedItems == errors + RepositoryFailItems(toCreate)
  {
    var fromRepo := new string[|toCreate|];
    for i := 0 to |toCreate|
      invariant forall j :: 0 <= j < i ==> fromRepo[j] == RepositoryFailItem(toCreate[j])
    {
      fromRepo[i] := RepositoryFailItem(toCreate[i]);
    }
    result := ImportResult(0, [], |toCreate|, errors + fromRepo[..]);
  }

  /**
   * What a stored import batch leaves in the table: every earlier row as it
   * was, and the i-th success under the next free key i places on, stamped
   * `now`, built from one of the started containers and reported as that
   * success's item; no other key is added.
   */
  ghost predicate StoredBatch(rows0: map<nat, Container>, next0: nat, rows: map<nat, Container>,
                              toCreate: seq<NewContainer>, now: int, result: ImportResult)
  {
    result.successfulCount == |result.successfulItems| &&
    (forall k :: k in rows0 ==> k in rows && rows[k] == rows0[k]) &&
    (forall k :: k in rows && k !in rows0 ==> next0 <= k < next0 + result.successfulCount) &&
    (forall i :: 0 <= i < result.successfulCount ==>
      next0 + i in rows && StartedRow(rows[next0 + i], next0 + i, toCreate, now, result.successfulItems[i]))
  }

  /** A row stored under key `k` at time `now` from one of the started containers, reported as `item`. */
  ghost predicate StartedRow(row: Container, k: nat, toCreate: seq<NewContainer>, now: int, item: string)
  {
    Fields(row) in toCreate && row == Inserted(Fields(row), k, now) && item == SuccessItem(row)
  }

  /** A committed batch, as the store reports it, leaves the table as `StoredBatch` describes. */
  lemma BatchStored(rows0: map<nat, Container>, next0: nat, toCreate: seq<NewContainer>, mask: seq<bool>,
                    created: seq<Container>, now: int, result: ImportResult)
    requires forall k :: k in rows0 ==> k < next0
    requires |mask| == |toCreate|
    requires FieldsOf(created) == Select(toCreate, mask, true)
    requires BatchRows(created, next0, now)
    requires result.successfulCount == |result.successfulItems| == |created|
    requires forall i :: 0 <= i < |created| ==> result.successfulItems[i] == SuccessItem(created[i])
    ensures StoredBatch(rows0, next0, AddRows(rows0, created), toCreate, now, result)
  {
    var rows := AddRows(rows0, created);
    AddRowsContents(rows0, next0, created, now);
    BatchNewRows(rows0, next0, toCreate, mask, created, now, result);
    assert forall k :: k in rows0 ==> k in rows && rows[k] == rows0[k];
    assert forall k :: k in rows && k !in rows0 ==> next0 <= k < next0 + result.successfulCount;
  }

  /** The i-th created row sits under key `next0 + i`, comes from a started container and is the i-th success item. */
  lemma BatchNewRows(rows0: map<nat, Container>, next0: nat, toCreate: seq<NewContainer>, mask: seq<bool>,
                     created: seq<Container>, now: int, result: ImportResult)
    requires forall k :: k in rows0 ==> k < next0
    requires |mask| == |toCreate|
    requires FieldsOf(created) == Select(toCreate, mask, true)
    requires BatchRows(created, next0, now)
    requires |result.successfulItems| == |created|
    requires forall i :: 0 <= i < |created| ==> result.successfulItems[i] == SuccessItem(created[i])
    ensures forall i :: 0 <= i < |created| ==>
      next0 + i in AddRows(rows0, created) &&
      StartedRow(AddRows(rows0, created)[next0 + i], next0 + i, toCreate, now, result.successfulItems[i])
  {
    var rows := AddRows(rows0, created);
    AddRowsContents(rows0, next0, created, now);
    FieldsOfIndex(created);
    SelectSubset(toCreate, mask, true);
    forall i | 0 <= i < |created|
      ensures next0 + i in rows && StartedRow(rows[next0 + i], next0 + i, toCreate, now, result.successfulItems[i])
    {
      var c := created[i];
      assert rows[next0 + i] == c;
      assert FieldsOf(created)[i] == Fields(c);
      assert Fields(c) in Select(toCreate, mask, true);
    }
  }

  // --------------------------------------------------------------- service

  class ContainerService {
    const repo: ContainerTable
    const statusIndex: StatusIndex
    const docker: DockerRuntime

    ghost predicate Valid()
      reads this, repo
    {
      repo.Valid()
    }

    constructor(repo: ContainerTable, statusIndex: StatusIndex, docker: DockerRuntime)
      requires repo.Valid()
      ensures Valid() && this.repo == repo && this.statusIndex == statusIndex && this.docker == docker
    {
      this.repo := repo;
      this.statusIndex := statusIndex;
      this.docker := docker;
    }

    /**
     * Start a container, then record it as `running`. When the record cannot
     * be written the just-started container is stopped once (not removed) and
     * the store's error is returned whatever the stop did.
     */
    method CreateContainer(name: string, image: string, now: int, fault: TxFault) returns (r: Result<nat>)
      requires Valid()
      modifies repo, docker
      ensures Valid()
      ensures var k := |old(docker.calls)|;
        k in docker.failing ==>
          r == Err("failed to start Docker container: " + docker.failing[k]) &&
          docker.calls == old(docker.calls) + [Start(name, image)] &&
          repo.rows == old(repo.rows) && repo.nextId == old(repo.nextId)
      ensures var k := |old(docker.calls)|;
        var n := NewContainer(IdFor(k), name, image, StatusRunning);
        var v := CreateVerdict(old(repo.rows), old(repo.nextId), n, fault);
        k !in docker.failing ==>
          r == Wrapped("failed to create container in repository", v) &&
          (v.Err? ==> docker.calls == old(docker.calls) + [Start(name, image), Stop(IdFor(k))]) &&
          (!v.Err? ==> docker.calls == old(docker.calls) + [Start(name, image)]) &&
          (v.Ok? ==> repo.rows == old(repo.rows)[v.value := Inserted(n, v.value, now)]) &&
          (!v.Ok? ==> repo.rows == old(repo.rows) && repo.nextId == old(repo.nextId))
    {
      var started := docker.StartContainer(name, image);
      if !started.Ok? {
        return Wrapped("failed to start Docker container", Err(started.msg));
      }
      var runtimeId := started.value;
      var id := repo.CreateContainer(NewContainer(runtimeId, name, image, StatusRunning), now, fault);
      if id.Err? {
        var _ := docker.StopContainer(runtimeId);
      }
      r := Wrapped("failed to create container in repository", id);
    }

    /**
     * Apply a partial update: refuse a rename, look the record up, bring the
     * runtime in line with a new image or status, then write the patch.
     */
    method UpdateContainer(id: nat, patch: Patch, now: int, lookupFails: bool, fault: TxFault) returns (r: Result<Container>)
      requires Valid()
      modifies repo, docker, patch
      ensures Valid()
      ensures repo.nextId == old(repo.nextId)
      ensures RenameRequested(old(patch.entries)) ==>
        r == Err(NameUpdateError) && docker.calls == old(docker.calls) &&
        repo.rows == old(repo.rows) && patch.entries == old(patch.entries)
      ensures !RenameRequested(old(patch.entries)) && (lookupFails || id !in old(repo.rows)) ==>
        r == Wrapped("failed to retrieve container for update", Err(NotFoundError)) &&
        docker.calls == old(docker.calls) && repo.rows == old(repo.rows) && patch.entries == old(patch.entries)
      ensures !RenameRequested(old(patch.entries)) && !lookupFails && id in old(repo.rows) ==>
        var c := old(repo.rows)[id];
        var plan := UpdatePlan(c, old(patch.entries));
        var k0 := |old(docker.calls)|;
        var failure := FirstFailure(|plan|, k0, docker.failing);
        (patch.entries ==
          if failure.Some? && failure.value < |ImageCalls(c, old(patch.entries))| then old(patch.entries)
          else StoredPatch(c, old(patch.entries), k0)) &&
        (failure.Some? ==>
          docker.calls == old(docker.calls) + plan[..failure.value + 1] &&
          r == Err(UpdateContexts(c, old(patch.entries))[failure.value] + ": " + docker.failing[k0 + failure.value]) &&
          repo.rows == old(repo.rows)) &&
        (failure.None? ==>
          docker.calls == old(docker.calls) + plan &&
          r == Wrapped("failed to update container in repository", UpdateVerdict(old(repo.rows), id, patch.entries, now, fault)) &&
          (r.Ok? ==> repo.rows == old(repo.rows)[id := r.value]) &&
          (!r.Ok? ==> repo.rows == old(repo.rows)))
    {
      if RenameRequested(patch.entries) {
        return Err(NameUpdateError);
      }
      var found := repo.GetContainerByID(id, lookupFails);
      if !found.Ok? {
        return Wrapped("failed to retrieve container for update", Err(NotFoundError));
      }
      var c := found.value;
      ghost var k0 := |docker.calls|;
      var aligned := AlignRuntime(c, patch);
      AlignFollowsPlan(c, old(patch.entries), k0, docker.failing);
      if aligned.Err? {
        return Err(aligned.msg);
      }
      var updated := repo.UpdateContainer(id, patch.entries, now, fault);
      r := Wrapped("failed to update container in repository", updated);
    }

    /**
     * Bring the runtime in line with the patch: restart under a new image,
     * then start or stop for a new status; the first failing call ends it.
     */
    method AlignRuntime(c: Container, patch: Patch) returns (r: Result<()>)
      modifies docker, patch
      ensures var k0 := |old(docker.calls)|;
        docker.calls == old(docker.calls) + AlignCalls(c, old(patch.entries), k0, docker.failing) &&
        r == AlignOutcome(c, old(patch.entries), k0, docker.failing) &&
        patch.entries ==
          if FirstFailure(|ImageCalls(c, old(patch.entries))|, k0, docker.failing).Some? then old(patch.entries)
          else StoredPatch(c, old(patch.entries), k0)
    {
      ghost var p := patch.entries;
      ghost var k0 := |docker.calls|;
      var image := ImageChange(c, patch.entries);
      var call := StatusCall(c, patch.entries);
      if image.Some? {
        var restarted := RestartWithImage(c, image.value, patch);
        if restarted.Err? {
          return restarted;
        }
      }
      if call.Some? {
        r := IssueStatusCall(c, call.value);
      } else {
        r := Ok(());
      }
    }

    /** Stop, remove, then start from the new image; the new runtime id goes into the caller's patch. */
    method RestartWithImage(c: Container, image: string, patch: Patch) returns (r: Result<()>)
      modifies docker, patch
      ensures var calls := RestartCalls(c, image);
        var k0 := |old(docker.calls)|;
        var failure := FirstFailure(3, k0, docker.failing);
        (failure.Some? ==>
          docker.calls == old(docker.calls) + calls[..failure.value + 1] &&
          r == Err(RestartContexts[failure.value] + ": " + docker.failing[k0 + failure.value]) &&
          patch.entries == old(patch.entries)) &&
        (failure.None? ==>
          docker.calls == old(docker.calls) + calls && r == Ok(()) &&
          patch.entries == old(patch.entries)["ContainerID" := Str(IdFor(k0 + 2))])
    {
      ghost var k0 := |docker.calls|;
      var stopped := docker.StopContainer(c.containerId);
      if stopped.Err? {
        FirstFailureIs(3, k0, docker.failing, 0);
        return Err("failed to update Docker container image: " + stopped.msg);
      }
      var removed := docker.RemoveContainer(c.containerId);
      if removed.Err? {
        FirstFailureIs(3, k0, docker.failing, 1);
        return Err("failed to remove Docker container before updating image: " + removed.msg);
      }
      var started := docker.StartContainer(c.containerName, image);
      if !started.Ok? {
        FirstFailureIs(3, k0, docker.failing, 2);
        return Err("failed to start Docker container with new image: " + started.msg);
      }
      FirstFailureNone(3, k0, docker.failing);
      patch.entries := patch.entries["ContainerID" := Str(started.value)];
      r := Ok(());
    }

    /** Start or stop the container for a status change. */
    method IssueStatusCall(c: Container, call: Call) returns (r: Result<()>)
      requires call == StartExisting(c.containerId) || call == Stop(c.containerId)
      modifies docker
      ensures var k0 := |old(docker.calls)|;
        docker.calls == old(docker.calls) + [call] &&
        (k0 in docker.failing ==> r == Err(StatusContext(call) + ": " + docker.failing[k0])) &&
        (k0 !in docker.failing ==> r == Ok(()))
    {
      var outcome;
      if call.StartExisting? {
        outcome := docker.StartExistingContainer(c.containerId);
        if outcome.Err? {
          return Err("failed to start Docker container: " + outcome.msg);
        }
      } else {
        outcome := docker.StopContainer(c.containerId);
        if outcome.Err? {
          return Err("failed to stop Docker container: " + outcome.msg);
        }
      }
      r := Ok(());
    }

    /**
     * Remove a container: look it up, stop it, remove it, delete its record.
     * The first failure ends the sequence; nothing already done is undone.
     */
    method DeleteContainer(id: nat, lookupFails: bool, fault: TxFault) returns (r: Result<()>)
      requires Valid()
      modifies repo, docker
      ensures Valid()
      ensures repo.nextId == old(repo.nextId)
      ensures lookupFails || id !in old(repo.rows) ==>
        r == Wrapped("failed to retrieve container for deletion", Err(NotFoundError)) &&
        docker.calls == old(docker.calls) && repo.rows == old(repo.rows)
      ensures !lookupFails && id in old(repo.rows) ==>
        var runtimeId := old(repo.rows)[id].containerId;
        var k0 := |old(docker.calls)|;
        (k0 in docker.failing ==>
          r == Err("failed to stop Docker container before deletion: " + docker.failing[k0]) &&
          docker.calls == old(docker.calls) + [Stop(runtimeId)] && repo.rows == old(repo.rows)) &&
        (k0 !in docker.failing && k0 + 1 in docker.failing ==>
          r == Err("failed to remove Docker container: " + docker.failing[k0 + 1]) &&
          docker.calls == old(docker.calls) + [Stop(runtimeId), Remove(runtimeId)] && repo.rows == old(repo.rows)) &&
        (k0 !in docker.failing && k0 + 1 !in docker.failing ==>
          docker.calls == old(docker.calls) + [Stop(runtimeId), Remove(runtimeId)] &&
          r == Wrapped("failed to delete container from repository", DeleteVerdict(old(repo.rows), id, fault)) &&
          (r.Ok? ==> repo.rows == old(repo.rows) - {id}) &&
          (!r.Ok? ==> repo.rows == old(repo.rows)))
    {
      var found := repo.GetContainerByID(id, lookupFails);
      if !found.Ok? {
        return Wrapped("failed to retrieve container for deletion", Err(NotFoundError));
      }
      var c := found.value;
      var stopped := docker.StopContainer(c.containerId);
      if stopped.Err? {
        return Err("failed to stop Docker container before deletion: " + stopped.msg);
      }
      var removed := docker.RemoveContainer(c.containerId);
      if removed.Err? {
        return Err("failed to remove Docker container: " + removed.msg);
      }
      var deleted := repo.DeleteContainer(id, fault);
      r := Wrapped("failed to delete container from repository", deleted);
    }

    /**
     * Import decoded spreadsheet rows (the first is the header): start a
     * container per complete row, store the started ones as one batch and
     * summarise what succeeded and what failed.
     */
    method ImportContainers(rows: seq<seq<string>>, now: int, failingInserts: set<nat>, fault: TxFault)
      returns (result: ImportResult, r: Result<()>)
      requires Valid()
      modifies repo, docker
      ensures Valid()
      ensures |rows| < 2 ==>
        result == ImportResult(0, [], 0, []) && r == Ok(()) &&
        docker.calls == old(docker.calls) && repo.rows == old(repo.rows)
      ensures |rows| >= 2 ==>
        var scan := ScanRows(rows[1..], |old(docker.calls)|, docker.failing);
        docker.calls == old(docker.calls) + scan.calls &&
        (scan.toCreate == [] ==>
          result == ImportResult(0, [], |scan.errors|, scan.errors) && r == Ok(()) &&
          repo.rows == old(repo.rows)) &&
        (scan.toCreate != [] ==>
          (r == Panic <==> fault == Panics) &&
          (r.Err? ==>
            result == ImportResult(0, [], |scan.toCreate|, scan.errors + RepositoryFailItems(scan.toCreate)) &&
            |r.msg| > 0 && repo.rows == old(repo.rows)) &&
          (r.Ok? ==>
            result.successfulCount == |result.successfulItems| == |repo.rows| - |old(repo.rows)| &&
            result.successfulCount + result.failedCount == |scan.toCreate| + |scan.errors| &&
            result.failedCount == |result.failedItems| &&
            scan.errors <= result.failedItems &&
            StoredBatch(old(repo.rows), old(repo.nextId), repo.rows, scan.toCreate, now, result)))
    {
      if |rows| < 2 {
        return ImportResult(0, [], 0, []), Ok(());
      }
      var toCreate, errors := StartRows(rows[1..]);
      if |toCreate| == 0 {
        return ImportResult(0, [], |errors|, errors), Ok(());
      }
      result, r := StoreRows(toCreate, errors, now, failingInserts, fault);
    }

    /**
     * The store phase of an import: the started containers go to the store as
     * one batch, and the summary accounts for every row.
     */
    method StoreRows(toCreate: seq<NewContainer>, errors: seq<string>, now: int, failingInserts: set<nat>, fault: TxFault)
      returns (result: ImportResult, r: Result<()>)
      requires Valid() && toCreate != []
      modifies repo
      ensures Valid()
      ensures r == Panic <==> fault == Panics
      ensures !r.Ok? ==> repo.rows == old(repo.rows)
      ensures r.Err? ==>
        result == ImportResult(0, [], |toCreate|, errors + RepositoryFailItems(toCreate)) && |r.msg| > 0
      ensures r.Ok? ==>
        result.successfulCount == |result.successfulItems| == |repo.rows| - |old(repo.rows)| &&
        result.successfulCount + result.failedCount == |toCreate| + |errors| &&
        result.failedCount == |result.failedItems| &&
        errors <= result.failedItems
      ensures r.Ok? ==> StoredBatch(old(repo.rows), old(repo.nextId), repo.rows, toCreate, now, result)
    {
      var created, failed, stored, mask := repo.CreateManyContainers(toCreate, now, failingInserts, fault);
      if stored.Panic? {
        return ImportResult(0, [], 0, []), Panic;
      }
      if stored.Err? {
        result := RepositoryErrorResult(errors, toCreate);
        return result, Wrapped("failed to import containers at repository level", Err(stored.msg));
      }
      AddRowsSize(old(repo.rows), old(repo.nextId), created, now);
      SelectPartition(toCreate, mask);
      result := AssembleImportResult(errors, created, failed);
      BatchStored(old(repo.rows), old(repo.nextId), toCreate, mask, created, now, result);
      r := Ok(());
    }

    /**
     * The row loop of an import: reject incomplete rows, start a container
     * for every complete one, and collect what to store and what failed.
     */
    method StartRows(data: seq<seq<string>>) returns (toCreate: seq<NewContainer>, errors: seq<string>)
      modifies docker
      ensures var scan := ScanRows(data, |old(docker.calls)|, docker.failing);
        docker.calls == old(docker.calls) + scan.calls && toCreate == scan.toCreate && errors == scan.errors
    {
      ghost var k0 := |docker.calls|;
      toCreate, errors := [], [];
      var i := 0;
      while i < |data|
        invariant 0 <= i <= |data|
        invariant |docker.calls| >= k0 && docker.calls[..k0] == old(docker.calls)
        invariant ScanRows(data[..i], k0, docker.failing) == ImportScan(toCreate, errors, docker.calls[k0..])
      {
        assert data[..i + 1][..i] == data[..i];
        var row := data[i];
        var rowTag := "Row " + NatToString(i + 2) + ": ";
        if |row| < 2 {
          errors := errors + [rowTag + "Not enough columns"];
        } else if row[0] == "" || row[1] == "" {
          errors := errors + [rowTag + "Missing required fields"];
        } else {
          var started := docker.StartContainer(row[0], row[1]);
          if !started.Ok? {
            errors := errors + [rowTag + "Failed to start container - " + started.msg];
          } else {
            toCreate := toCreate + [NewContainer(started.value, row[0], row[1], StatusRunning)];
          }
        }
        i := i + 1;
      }
      assert data[..i] == data;
      assert docker.calls == old(docker.calls) + docker.calls[k0..];
    }

    // ------------------------------------------------------ pass-throughs

    /** The listing, with its error wrapped. */
    method ViewAllContainers(filter: Option<ContainerFilter>, from: int, to: int, sortBy: string, sortOrder: string, fault: QueryFault)
      returns (r: Result<View>)
      requires Valid()
      ensures r.Ok? <==> fault == QueryOk && OrderingFor(sortBy, sortOrder).Ok?
      ensures fault == CountFails ==> r == Wrapped("failed to retrieve containers", Err("failed to count containers"))
      ensures fault != CountFails && OrderingFor(sortBy, sortOrder).Err? ==>
        r == Wrapped("failed to retrieve containers", Err("invalid sort field: " + sortBy))
      ensures r.Ok? ==> r.value.total == |Filter(repo.Listed(), filter)|
      ensures r.Ok? ==>
        r.value.page == Page(SortRows(Filter(repo.Listed(), filter), OrderingFor(sortBy, sortOrder).value), from, PageSize(from, to))
    {
      var view := repo.ViewAllContainers(filter, from, to, sortBy, sortOrder, fault);
      r := Wrapped("failed to retrieve containers", view);
    }

    /** The rows an export writes: the listing's page, without its total. */
    method ExportContainers(filter: Option<ContainerFilter>, from: int, to: int, sortBy: string, sortOrder: string, fault: QueryFault)
      returns (r: Result<seq<Container>>)
      requires Valid()
      ensures r.Ok? <==> fault == QueryOk && OrderingFor(sortBy, sortOrder).Ok?
      ensures fault == CountFails ==> r == Wrapped("failed to retrieve containers for export", Err("failed to count containers"))
      ensures r.Ok? ==>
        r.value == Page(SortRows(Filter(repo.Listed(), filter), OrderingFor(sortBy, sortOrder).value), from, PageSize(from, to))
    {
      var view := repo.ViewAllContainers(filter, from, to, sortBy, sortOrder, fault);
      if !view.Ok? {
        return Wrapped("failed to retrieve containers for export", if view.Err? then Err(view.msg) else Panic);
      }
      r := Ok(view.value.page);
    }

    /** Every container's id and name. */
    method GetAllContainers(fails: bool) returns (r: Result<seq<ContainerName>>)
      requires Valid()
      ensures fails <==> r == Wrapped("failed to retrieve container names", Err("failed to retrieve container names"))
      ensures r.Ok? <==> !fails
      ensures r.Ok? ==> |r.value| == |repo.rows|
      ensures r.Ok? ==> forall i :: 0 <= i < |r.value| ==>
        r.value[i].id in repo.rows && repo.rows[r.value[i].id].containerName == r.value[i].containerName
      ensures r.Ok? ==> forall k :: k in repo.rows ==> ContainerName(k, repo.rows[k].containerName) in r.value
      ensures r.Ok? ==> forall i, j :: 0 <= i < j < |r.value| ==> r.value[i].id != r.value[j].id
    {
      var names := repo.GetContainerInfo(fails);
      r := Wrapped("failed to retrieve container names", names);
    }

    /** Record a status event. */
    method AddContainerStatus(id: nat, status: string, now: int, fault: IndexFault) returns (r: Result<()>)
      modifies statusIndex
      ensures r == Wrapped("failed to add container status", AddStatusVerdict(status, fault))
      ensures r.Ok? ==> statusIndex.events == old(statusIndex.events) + [StatusEvent(id, status, now)]
      ensures !r.Ok? ==> statusIndex.events == old(statusIndex.events)
    {
      var added := statusIndex.AddContainerStatus(id, status, now, fault);
      r := Wrapped("failed to add container status", added);
    }

    /** The number of records. */
    method GetNumContainers(fails: bool) returns (r: Result<nat>)
      ensures fails ==> r == Wrapped("failed to get number of containers", Err("failed to count containers"))
      ensures !fails ==> r == Ok(|repo.rows|)
    {
      var n := repo.GetNumContainers(fails);
      r := Wrapped("failed to get number of containers", n);
    }

    /** The number of records whose status is `running`. */
    method GetNumRunningContainers(fails: bool) returns (r: Result<nat>)
      ensures fails ==> r == Wrapped("failed to get number of running containers", Err("failed to count running containers"))
      ensures !fails ==> r == Ok(|RunningKeys(repo.rows)|)
      ensures r.Ok? ==> r.value <= |repo.rows|
    {
      var n := repo.GetNumRunningContainers(fails);
      r := Wrapped("failed to get number of running containers", n);
    }

    /** The mean uptime ratio over [start, end]. */
    method GetContainerUptimeRatio(start: int, end: int, fault: SearchFault) returns (r: Result<real>)
      ensures start > end ==> r == Wrapped("failed to get container uptime ratio", Err(StartAfterEndError))
      ensures start <= end && fault == SearchOk && Window(statusIndex.events, start, end) != [] ==>
        r == Ok(MeanUptimeRatio(Window(statusIndex.events, start, end)).value)
      ensures r.Ok? ==> 0.0 <= r.value <= 1.0
    {
      var ratio := statusIndex.GetContainerUptimeRatio(start, end, fault);
      r := Wrapped("failed to get container uptime ratio", ratio);
    }
  }

  // -------------------------------------------------------------- lemmas

  /** An image change restarts the container strictly as stop, remove, start, all on the original runtime id and name. */
  lemma ImageChangeOrder(c: Container, p: PatchMap)
    requires ImageChange(c, p).Some?
    ensures |UpdatePlan(c, p)| >= 3
    ensures UpdatePlan(c, p)[..3] ==
      [Stop(c.containerId), Remove(c.containerId), Start(c.containerName, ImageChange(c, p).value)]
  {
  }

  /** The status call, when there is one, comes last and targets the record's original runtime id. */
  lemma StatusCallComesLast(c: Container, p: PatchMap)
    requires StatusCall(c, p).Some?
    ensures var plan := UpdatePlan(c, p);
      plan[|plan| - 1] == StatusCall(c, p).value &&
      (plan[|plan| - 1].StartExisting? || plan[|plan| - 1].Stop?) &&
      plan[|plan| - 1].runtimeId == c.containerId
  {
  }

  /**
   * A new status other than `running` or `stopped` needs no runtime call, and
   * a successful update still stores it.
   */
  lemma OtherStatusStoredWithoutCall(rows: map<nat, Container>, id: nat, p: PatchMap, now: int, fault: TxFault, k0: nat)
    requires id in rows
    requires "status" in p && p["status"].Str? && !IsKnownStatus(p["status"].s)
    requires UpdateVerdict(rows, id, StoredPatch(rows[id], p, k0), now, fault).Ok?
    ensures StatusCall(rows[id], p).None?
    ensures UpdateVerdict(rows, id, StoredPatch(rows[id], p, k0), now, fault).value.status == p["status"].s
  {
    var q := StoredPatch(rows[id], p, k0);
    PatchChangesOnlyNamedColumns(rows[id], q, now);
  }

  /**
   * With the corrected guard, an update that reaches the store never changes
   * the container's name; when a new image was started, the record carries
   * the new runtime id.
   */
  lemma UpdateKeepsName(rows: map<nat, Container>, id: nat, p: PatchMap, now: int, fault: TxFault, k0: nat)
    requires id in rows && !RenameRequested(p)
    requires UpdateVerdict(rows, id, StoredPatch(rows[id], p, k0), now, fault).Ok?
    ensures var u := UpdateVerdict(rows, id, StoredPatch(rows[id], p, k0), now, fault).value;
      u.containerName == rows[id].containerName &&
      (ImageChange(rows[id], p).Some? ==>
        u.containerId == IdFor(k0 + 2) && u.imageName == ImageChange(rows[id], p).value)
  {
    var q := StoredPatch(rows[id], p, k0);
    PatchChangesOnlyNamedColumns(rows[id], q, now);
  }

  /**
   * As written, the guard lets `{"ContainerName": "x"}` through, and the store
   * then renames the container.
   */
  lemma NameGuardBypass(c: Container, now: int)
    requires c.containerName != "x"
    ensures var p := map["ContainerName" := Str("x")];
      !NameGuardAsWritten(p) && RenameRequested(p) &&
      UpdatePlan(c, p) == [] &&
      ApplyPatch(c, p, now).Some? && ApplyPatch(c, p, now).value.containerName == "x"
  {
    var p := map["ContainerName" := Str("x")];
    assert "image_name" !in p && "status" !in p;
    assert PatchApplicable(p);
  }
}
