/**
 * The REST front end: each handler checks its request in a fixed order,
 * answers 400 with a fixed message at the first check that fails, and only
 * then calls the service; a service error becomes 500 with a fixed message.
 * A handler is modelled as a function of the request and of what the
 * service would answer; it reports the call it made, if any.
 */
module RestHandler {
  import opened Outcomes
  import opened Text
  import opened ContainerModel
  import opened Listing

  const MaxRangeLimit: int := 100
  const MaxFileSize: int := 10 * 1024 * 1024
  const SupportedFileType: string := ".xlsx"

  const StatusOK: int := 200
  const StatusCreated: int := 201
  const StatusBadRequest: int := 400
  const StatusInternalServerError: int := 500

  /** The JSON body of a response. */
  datatype Body =
    | ErrorBody(error: string)
    | Created(id: nat)
    | Listed(count: nat, containers: seq<Container>)
    | Updated(id: nat, data: Container)
    | Deleted
    | Imported(fileName: string, result: ImportResult)
    | Exported(rows: seq<Container>)
    | NoBody                       // the recovery middleware's answer to a panic

  datatype Response = Response(status: int, body: Body)

  /** The outcome of a check chain: a 400 message, or the arguments for the service. */
  datatype Checked<A> = Reject(message: string) | Forward(args: A)

  /** What a handler did: its response, and the service call it made with its arguments. */
  datatype Exchange<A> = Exchange(response: Response, call: Option<A>)

  function BadRequest(message: string): Response { Response(StatusBadRequest, ErrorBody(message)) }

  /** A failed service call: 500 with the handler's message, or the recovery middleware's bare 500. */
  function ServerError<T>(message: string, answer: Result<T>): (response: Response)
    requires !answer.Ok?
    ensures response.status == StatusInternalServerError
  {
    if answer.Err? then Response(StatusInternalServerError, ErrorBody(message))
    else Response(StatusInternalServerError, NoBody)
  }

  /** Run the service call that a passed check chain asks for. */
  function Dispatch<A, T>(checked: Checked<A>, answer: Result<T>, message: string, success: Response): (ex: Exchange<A>)
    ensures checked.Reject? ==> ex == Exchange(BadRequest(checked.message), None)
    ensures checked.Forward? ==> ex.call == Some(checked.args)
    ensures checked.Forward? && answer.Ok? ==> ex.response == success
    ensures checked.Forward? && !answer.Ok? ==> ex.response == ServerError(message, answer)
  {
    match checked
    case Reject(m) => Exchange(BadRequest(m), None)
    case Forward(args) =>
      if answer.Ok? then Exchange(success, Some(args))
      else Exchange(ServerError(message, answer), Some(args))
  }

  // ------------------------------------------------------------- create

  datatype CreateRequest = CreateRequest(containerName: string, imageName: string)

  /**
   * `None` stands for a body that does not decode. Both fields are bound as
   * required, so an empty (not merely blank) field fails the binding too.
   */
  function CreateChecks(req: Option<CreateRequest>): (c: Checked<CreateRequest>)
    ensures c.Forward? <==> req.Some? && !IsBlank(req.value.containerName) && !IsBlank(req.value.imageName)
    ensures c.Forward? ==> c.args == req.value
    ensures req.None? ==> c == Reject("Invalid request data")
    ensures req.Some? && (req.value.containerName == [] || req.value.imageName == []) ==> c == Reject("Invalid request data")
    ensures c.Reject? && c != Reject("Invalid request data") ==> c == Reject("Container name and image name are required")
  {
    if req.None? || req.value.containerName == [] || req.value.imageName == [] then Reject("Invalid request data")
    else if TrimSpace(req.value.containerName) == [] || TrimSpace(req.value.imageName) == [] then
      TrimSpaceEmpty(req.value.containerName);
      TrimSpaceEmpty(req.value.imageName);
      Reject("Container name and image name are required")
    else
      TrimSpaceEmpty(req.value.containerName);
      TrimSpaceEmpty(req.value.imageName);
      Forward(req.value)
  }

  /** `POST /containers`: 201 with the new key. */
  function CreateContainer(req: Option<CreateRequest>, answer: Result<nat>): (ex: Exchange<CreateRequest>)
    ensures ex.call.Some? <==> CreateChecks(req).Forward?
    ensures ex.call.Some? ==> ex.call.value == req.value
    ensures ex.response.status == StatusCreated <==> ex.call.Some? && answer.Ok?
    ensures ex.response.status == StatusCreated ==> ex.response.body == Created(answer.value)
    ensures ex.call.Some? && !answer.Ok? ==> ex.response.status == StatusInternalServerError
  {
    var success := if answer.Ok? then Response(StatusCreated, Created(answer.value)) else BadRequest("");
    Dispatch(CreateChecks(req), answer, "Failed to create container", success)
  }

  // ------------------------------------------------------- view / export

  /** The query string: `None` is an absent parameter, which takes its default. */
  datatype ListQuery = ListQuery(from: Option<string>, to: Option<string>, sortBy: Option<string>, sortOrder: Option<string>)

  /** What the listing hands the service. */
  datatype ListArgs = ListArgs(filter: ContainerFilter, from: int, to: int, sortBy: string, sortOrder: string)

  function Default(param: Option<string>, default: string): string
  {
    if param.Some? then param.value else default
  }

  /** The range and order checks shared by the listing and the export. */
  function ListChecks(filter: Option<ContainerFilter>, q: ListQuery): (c: Checked<ListArgs>)
    ensures filter.None? ==> c == Reject("Invalid filter data")
    ensures c.Forward? <==>
      filter.Some? &&
      Atoi(Default(q.from, "0")).Some? && Atoi(Default(q.from, "0")).value >= 0 &&
      Atoi(Default(q.to, "100")).Some? && Atoi(Default(q.to, "100")).value >= Atoi(Default(q.from, "0")).value &&
      Atoi(Default(q.to, "100")).value - Atoi(Default(q.from, "0")).value < MaxRangeLimit &&
      ToUpper(Default(q.sortOrder, "ASC")) in {"ASC", "DESC"}
    ensures c.Forward? ==>
      c.args.filter == filter.value &&
      0 <= c.args.from <= c.args.to < c.args.from + MaxRangeLimit &&
      c.args.from == Atoi(Default(q.from, "0")).value && c.args.to == Atoi(Default(q.to, "100")).value &&
      c.args.sortBy == Default(q.sortBy, "id") &&
      c.args.sortOrder == ToUpper(Default(q.sortOrder, "ASC"))
  {
    if filter.None? then Reject("Invalid filter data")
    else
      var from := Atoi(Default(q.from, "0"));
      if from.None? || from.value < 0 then Reject("Invalid 'from' parameter")
      else
        var to := Atoi(Default(q.to, "100"));
        if to.None? || to.value < from.value then Reject("Invalid 'to' parameter")
        else if to.value - from.value >= MaxRangeLimit then Reject("Range limit exceeded")
        else
          var sortOrder := ToUpper(Default(q.sortOrder, "ASC"));
          if sortOrder != "ASC" && sortOrder != "DESC" then Reject("Invalid sort order")
          else Forward(ListArgs(filter.value, from.value, to.value, Default(q.sortBy, "id"), sortOrder))
  }

  /** `GET /containers`: 200 with the total and the page. */
  function ViewContainers(filter: Option<ContainerFilter>, q: ListQuery, answer: Result<View>): (ex: Exchange<ListArgs>)
    ensures ex.call.Some? <==> ListChecks(filter, q).Forward?
    ensures ex.call.Some? ==> ex.call.value == ListChecks(filter, q).args
    ensures ex.response.status == StatusOK <==> ex.call.Some? && answer.Ok?
    ensures ex.response.status == StatusOK ==> ex.response.body == Listed(answer.value.total, answer.value.page)
    ensures ex.call.Some? && !answer.Ok? ==> ex.response.status == StatusInternalServerError
  {
    var success := if answer.Ok? then Response(StatusOK, Listed(answer.value.total, answer.value.page)) else BadRequest("");
    Dispatch(ListChecks(filter, q), answer, "Failed to retrieve containers", success)
  }

  /** `GET /containers/export`: 200 with the page's rows as a file. */
  function ExportContainers(filter: Option<ContainerFilter>, q: ListQuery, answer: Result<seq<Container>>): (ex: Exchange<ListArgs>)
    ensures ex.call.Some? <==> ListChecks(filter, q).Forward?
    ensures ex.call.Some? ==> ex.call.value == ListChecks(filter, q).args
    ensures ex.response.status == StatusOK <==> ex.call.Some? && answer.Ok?
    ensures ex.response.status == StatusOK ==> ex.response.body == Exported(answer.value)
    ensures ex.call.Some? && !answer.Ok? ==> ex.response.status == StatusInternalServerError
  {
    var success := if answer.Ok? then Response(StatusOK, Exported(answer.value)) else BadRequest("");
    Dispatch(ListChecks(filter, q), answer, "Failed to export containers", success)
  }

  /** With no `from` and no `to`, the defaults 0 and 100 span a full 100 and are refused. */
  lemma DefaultRangeRejected(filter: ContainerFilter, sortBy: Option<string>, sortOrder: Option<string>)
    ensures ListChecks(Some(filter), ListQuery(None, None, sortBy, sortOrder)) == Reject("Range limit exceeded")
  {
    assert NatToString(0) == "0";
    assert NatToString(100) == "100";
    AtoiFormat(0);
    AtoiFormat(100);
  }

  /**
   * The upper-cased order the handler passes on selects the same direction
   * in the listing as the text the client sent.
   */
  lemma SortOrderNormalised(filter: ContainerFilter, q: ListQuery)
    requires ListChecks(Some(filter), q).Forward?
    ensures DirectionOf(ListChecks(Some(filter), q).args.sortOrder) == DirectionOf(Default(q.sortOrder, "ASC"))
    ensures ListChecks(Some(filter), q).args.sortOrder == "DESC" <==> DirectionOf(Default(q.sortOrder, "ASC")) == Desc
  {
    var raw := Default(q.sortOrder, "ASC");
    LowerOfUpper(raw);
    var upper := ToUpper(raw);
    assert upper == "ASC" || upper == "DESC";
    if upper == "DESC" {
      assert ToLower(upper) == "desc";
    } else {
      assert ToLower(upper) == "asc";
    }
  }

  // ---------------------------------------------------- update / delete

  /** The `:id` path parameter: present and a base-10 64-bit unsigned number. */
  function IdChecks(id: string): (c: Checked<nat>)
    ensures c.Forward? <==> ParseUint(id).Some?
    ensures c.Forward? ==> c.args == DecimalValue(id) && c.args < Two64
    ensures id == [] ==> c == Reject("ID is required")
    ensures id != [] && c.Reject? ==> c == Reject("Invalid ID format")
  {
    if id == [] then Reject("ID is required")
    else match ParseUint(id)
      case None => Reject("Invalid ID format")
      case Some(n) => Forward(n)
  }

  /** Every key the listing or the gRPC listing writes for a container is accepted back. */
  lemma IdChecksAcceptFormattedKeys(n: nat)
    requires n < Two64
    ensures IdChecks(NatToString(n)) == Forward(n)
  {
    ParseUintFormat(n);
  }

  datatype UpdateArgs = UpdateArgs(id: nat, patch: PatchMap)

  /** `None` stands for a body that is not a JSON object. */
  function UpdateChecks(id: string, body: Option<PatchMap>): (c: Checked<UpdateArgs>)
    ensures c.Forward? <==> ParseUint(id).Some? && body.Some? && body.value != map[]
    ensures c.Forward? ==> c.args == UpdateArgs(DecimalValue(id), body.value)
    ensures ParseUint(id).Some? && body.Some? && body.value == map[] ==> c == Reject("No fields to update")
  {
    match IdChecks(id)
    case Reject(m) => Reject(m)
    case Forward(n) =>
      if body.None? then Reject("Invalid update data")
      else if |body.value| == 0 then Reject("No fields to update")
      else Forward(UpdateArgs(n, body.value))
  }

  /** `PUT /containers/:id`: 200 with the updated record; the patch reaches the service unchanged. */
  function UpdateContainer(id: string, body: Option<PatchMap>, answer: Result<Container>): (ex: Exchange<UpdateArgs>)
    ensures ex.call.Some? <==> UpdateChecks(id, body).Forward?
    ensures ex.call.Some? ==> ex.call.value == UpdateArgs(DecimalValue(id), body.value)
    ensures ex.response.status == StatusOK <==> ex.call.Some? && answer.Ok?
    ensures ex.response.status == StatusOK ==> ex.response.body == Updated(DecimalValue(id), answer.value)
    ensures ex.call.Some? && !answer.Ok? ==> ex.response.status == StatusInternalServerError
  {
    var checked := UpdateChecks(id, body);
    var success := if checked.Forward? && answer.Ok? then Response(StatusOK, Updated(checked.args.id, answer.value)) else BadRequest("");
    Dispatch(checked, answer, "Failed to update container", success)
  }

  /** `DELETE /containers/:id`. */
  function DeleteContainer(id: string, answer: Result<()>): (ex: Exchange<nat>)
    ensures ex.call.Some? <==> ParseUint(id).Some?
    ensures ex.call.Some? ==> ex.call.value == DecimalValue(id)
    ensures ex.response.status == StatusOK <==> ex.call.Some? && answer.Ok?
    ensures ex.response.status == StatusOK ==> ex.response.body == Deleted
    ensures ex.call.Some? && !answer.Ok? ==> ex.response.status == StatusInternalServerError
  {
    Dispatch(IdChecks(id), answer, "Failed to delete container", Response(StatusOK, Deleted))
  }

  // -------------------------------------------------------------- import

  /** The uploaded form file. */
  datatype Upload = Upload(fileName: string, size: nat)

  /** Whether the upload's content can be opened and read. */
  datatype FileAccess = Readable | OpenFails | ReadFails

  predicate IsXlsxName(fileName: string)
  {
    HasSuffix(ToLower(fileName), SupportedFileType)
  }

  /** Upper- or lower-casing a file name never changes whether it is accepted. */
  lemma XlsxNameIgnoresCase(fileName: string)
    ensures IsXlsxName(ToUpper(fileName)) == IsXlsxName(fileName)
    ensures IsXlsxName(ToLower(fileName)) == IsXlsxName(fileName)
  {
    LowerOfUpper(fileName);
    assert forall i :: 0 <= i < |fileName| ==> LowerChar(LowerChar(fileName[i])) == LowerChar(fileName[i]);
    assert ToLower(ToLower(fileName)) == ToLower(fileName);
  }

  /** `None` stands for a request without a `file` form field. */
  function ImportChecks(file: Option<Upload>): (c: Checked<Upload>)
    ensures c.Forward? <==> file.Some? && 0 < file.value.size <= MaxFileSize && IsXlsxName(file.value.fileName)
    ensures c.Forward? ==> c.args == file.value
    ensures file.None? ==> c == Reject("File is required")
    ensures file.Some? && file.value.size > MaxFileSize ==> c == Reject("File size exceeds the maximum limit of 10 MB")
    ensures file.Some? && file.value.size == 0 ==> c == Reject("File is empty")
  {
    if file.None? then Reject("File is required")
    else if file.value.size > MaxFileSize then Reject("File size exceeds the maximum limit of 10 MB")
    else if file.value.size == 0 then Reject("File is empty")
    else if !IsXlsxName(file.value.fileName) then Reject("Unsupported file type, only .xlsx is allowed")
    else Forward(file.value)
  }

  /**
   * `POST /containers/import`. The service sees the content only when it can
   * be read; a missing result counts as a failure.
   */
  function ImportContainers(file: Option<Upload>, access: FileAccess, answer: Result<Option<ImportResult>>): (ex: Exchange<Upload>)
    ensures ex.call.Some? <==> ImportChecks(file).Forward? && access == Readable
    ensures ex.call.Some? ==> ex.call.value == file.value
    ensures ImportChecks(file).Reject? ==> ex.response.status == StatusBadRequest
    ensures ex.response.status == StatusOK <==> ex.call.Some? && answer.Ok? && answer.value.Some?
    ensures ex.response.status == StatusOK ==> ex.response.body == Imported(file.value.fileName, answer.value.value)
    ensures ImportChecks(file).Forward? && ex.response.status != StatusOK ==> ex.response.status == StatusInternalServerError
  {
    var checked := ImportChecks(file);
    if checked.Reject? then Exchange(BadRequest(checked.message), None)
    else
      var upload := checked.args;
      if access == OpenFails then Exchange(Response(StatusInternalServerError, ErrorBody("Failed to open file")), None)
      else if access == ReadFails then Exchange(Response(StatusInternalServerError, ErrorBody("Failed to read file content")), None)
      else if !answer.Ok? then
        assert access == Readable;
        Exchange(ServerError("Failed to import containers", answer), Some(upload))
      else if answer.value.None? then Exchange(Response(StatusInternalServerError, ErrorBody("Import result is nil")), Some(upload))
      else Exchange(Response(StatusOK, Imported(upload.fileName, answer.value.value)), Some(upload))
  }
}
