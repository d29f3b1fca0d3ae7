# container-adm-service, modelled in Dafny

container-adm-service keeps an inventory of Docker containers. Each container has:
- a numeric key;
- a unique runtime id;
- a unique name;
- an image;
- a status;
- two timestamps.

The inventory lives in a relational table. Every status change is also appended to a search index of status events, and the uptime queries aggregate over that index. A service layer orchestrates the two stores and the Docker runtime:
- creating a container starts it and then records it (a failed record stops it again);
- an update restarts it under a new image and starts or stops it for a new status before writing the record;
- deleting stops it, removes it and then drops the record;
- importing starts a container per spreadsheet row and stores the started ones as one batch.

Three front ends drive the service:
- a REST API with request guards;
- a gRPC API (the container-name listing, and a dashboard summary of counts and the mean uptime ratio);
- a Kafka consumer that turns `{id, container_name, status}` messages into status updates and status events.

The model has one module per part of the system. Parts that change state in place are classes with `modifies` frames:
- the table, `Repository.ContainerTable`;
- the status index, `StatusLog.StatusIndex`;
- the runtime, `Runtime.DockerRuntime`, which keeps a log of the calls made to it;
- the orchestrator, `Service.ContainerService`;
- the two handler objects.

Parts that only compute are datatypes and functions with lemmas:
- filtering, sorting and paging;
- uptime arithmetic;
- the REST and gRPC guards.

A failure the code can meet is a parameter of the operation: a transaction fault, a failing query, or the outcome of an index or search request. Runtime failures come from the runtime's `failing` map, keyed by the position of a call in the call log. A Go `panic` (re-raised after a rollback, or from an unchecked type assertion) is the `Panic` outcome of `Outcomes.Result`.

`Outcomes.Wrapped` stands for `fmt.Errorf("context: %w", err)`. The store's own error texts are abstracted to the prefixes that the repository writes.

| module | file | models |
|---|---|---|
| Outcomes | outcome.dfy | Go `(value, error)` results, `%w` wrapping, panics |
| Text | text.dfy | `strconv` decimal conversions, `strings` trimming, case mapping, suffix tests |
| ContainerModel | container.dfy | `model.Container` and the DTOs |
| Listing | listing.dfy | the listing query: filter, sort whitelist, ordering, `LIMIT`/`OFFSET` |
| Repository | repository.dfy | the container table and its transactions |
| Uptime | uptime.dfy | the uptime ratio and uptime duration aggregations |
| StatusLog | status_log.dfy | the status-event index |
| Runtime | runtime.dfy | the Docker client as the service sees it |
| Service | service.dfy | the lifecycle orchestrator |
| Ingestion | ingestion.dfy | the Kafka consumer |
| GrpcHandler | grpc_handler.dfy | the gRPC handler |
| RestHandler | rest_handler.dfy | the REST handler |

## Model

| member | source | states |
|---|---|---|
| Outcomes.Wrapped | internal/service/container_service.go:76-85 | wrapping an error with a context keeps it an error whose text is `context: cause`; a value and a panic pass through unchanged |
| Outcomes.Failed | internal/delivery/grpc/grpc_server_handler.go:32-36 | a failure of one result type becomes the same failure of the caller's result type, with the context prefixed; a panic stays a panic |
| Text.NatToStringValue | internal/delivery/grpc/grpc_server_handler.go:41 | the decimal text of a key is all digits and reads back as that key |
| Text.ParseUintFormat | internal/delivery/rest/rest_server_handler.go:123 | `ParseUint` accepts the decimal text of every value below 2^64 and returns that value |
| Text.AtoiFormat | internal/delivery/rest/rest_server_handler.go:79-89 | `Atoi` accepts the decimal text of every value below 2^63 and returns that value |
| Text.DecimalValueLeadingZeros | internal/delivery/rest/rest_server_handler.go:123 | digit text without a leading zero is exactly the canonical rendering of its value |
| Text.TrimSpaceEmpty | internal/delivery/rest/rest_server_handler.go:55 | trimming leaves nothing exactly when the text is all whitespace |
| Text.LowerOfUpper | internal/delivery/rest/rest_server_handler.go:97 | lower-casing after upper-casing equals lower-casing, so the upper-cased sort order keeps its meaning |
| Text.TextLessEqTotal | internal/repository/container_repository.go:175 | the text order used by `ORDER BY` on text columns is total |
| ContainerModel.Inserted | internal/model/container.go:5-13 | an inserted record carries exactly the caller's four columns, the assigned key, and the insertion time in both timestamps |
| Listing.FilterKeepsExactlyMatches | internal/repository/container_repository.go:131-147 | a row is in the filtered listing if and only if it is in the table and contains every non-empty filter field in its column |
| Listing.FilterEmptyKeepsAll | internal/repository/container_repository.go:131-147 | a nil filter, or one with all fields empty, keeps every row in order |
| Listing.SortFieldWhitelist | internal/repository/container_repository.go:155-169 | a sort field is accepted if and only if it names one of the whitelisted columns, and it maps to that column |
| Listing.OrderingFor | internal/repository/container_repository.go:155-178 | no sort field means newest first by `created_at`; an unknown field is the error `invalid sort field: <field>`; otherwise the named column, descending exactly when the lower-cased order is `desc` |
| Listing.SortRowsSortsAndPermutes | internal/repository/container_repository.go:175-178 | the ordered listing is sorted by the chosen column and direction and is a permutation of the filtered rows |
| Listing.PageSize | internal/repository/container_repository.go:180-184 | the limit is `to - from` when positive and 10 otherwise, never zero |
| Listing.Page | internal/repository/container_repository.go:180-189 | the page holds at most `limit` rows, exactly the rows that follow the offset, in listing order |
| Repository.PatchChangesOnlyNamedColumns | internal/repository/container_repository.go:209-219 | an applied patch changes only the columns it names, sets `updated_at`, and keeps the key and `created_at` |
| Repository.SelectPartition | internal/repository/container_repository.go:104-111 | every row of a batch ends up either created or failed, never both, and the two counts add up to the batch size |
| Repository.SelectNoneKept | internal/repository/container_repository.go:113-117 | nothing was created exactly when no insert of the batch succeeded |
| Repository.InsertKeepsInvariant | internal/model/container.go:6-8 | an insert that does not clash with a unique runtime id or name keeps keys below the next key and keeps both columns unique |
| Repository.AddRowsSize | internal/repository/container_repository.go:104-125 | a committed batch adds exactly one new key per created row, all below the advanced next key |
| Repository.ContainerTable.CreateContainer | internal/repository/container_repository.go:56-84 | a record is inserted under a fresh key, and the key is returned, unless the transaction fails or the runtime id or name is taken; on any failure the table is unchanged |
| Repository.ContainerTable.CreateManyContainers | internal/repository/container_repository.go:86-126 | each row is inserted on its own; a row whose insert fails is reported failed and the rest go on; when none succeed, or the commit fails, or a panic occurs, everything is rolled back; a commit stores exactly the created rows under consecutive keys |
| Repository.ContainerTable.InsertEach | internal/repository/container_repository.go:104-111 | the loop over the batch partitions it into created and failed rows in input order, and the table grows by exactly the created ones |
| Repository.ContainerTable.InsertOne | internal/repository/container_repository.go:104-110 | a row is stored, under the next key, if and only if its insert is not refused and it clashes with no stored row; otherwise the table is unchanged |
| Repository.BatchStep | internal/repository/container_repository.go:103-111 | one more insert extends the created/failed partition of the batch and the table by exactly that row's outcome |
| Repository.ContainerTable.UpdateContainer | internal/repository/container_repository.go:195-230 | a missing key is `container not found`; a successful update replaces just that record with the patched one; a failure leaves the table as it was |
| Repository.ContainerTable.DeleteContainer | internal/repository/container_repository.go:232-267 | a missing key is `container not found`; a successful delete removes exactly that key; a failure leaves the table as it was |
| Repository.ContainerTable.GetContainerByID | internal/repository/container_repository.go:269-278 | the record under the key is found if and only if the key exists and the query works; otherwise `container not found` |
| Repository.ContainerTable.GetContainerInfo | internal/repository/container_repository.go:280-291 | every stored record appears with its key and name, exactly once (the keys are pairwise distinct), and nothing else appears; a failed query is `failed to retrieve container names` |
| Repository.ContainerTable.GetNumContainers | internal/repository/container_repository.go:332-341 | the count is the number of records |
| Repository.ContainerTable.GetNumRunningContainers | internal/repository/container_repository.go:343-352 | the count is the number of `running` records, never more than the total |
| Repository.ContainerTable.ViewAllContainers | internal/repository/container_repository.go:128-193 | the total counts the filtered rows; the page is the sorted, filtered listing cut at offset and limit; every page row matches the filter and is a stored record; an unknown sort field is rejected and a failing query is reported |
| Repository.ContainerTable.ListedIsTable | internal/repository/container_repository.go:186-189 | the unfiltered listing has one row per record, holds every stored record, holds only stored records under their own keys, and lists them in strictly ascending key order, so each record exactly once |
| Repository.RowsBelowAscending | internal/repository/container_repository.go:186-189 | rows stored under their own keys are listed below the bound in strictly ascending key order |
| Repository.RowsBelowIsTable | internal/repository/container_repository.go:186-189 | listing the rows below the next key gives every stored row once and nothing else, in ascending key order |
| Repository.NamesOfTable | internal/repository/container_repository.go:280-291 | the name listing has one entry per record, each the key and name of a stored record, every record present, keys ascending |
| Repository.AddRowsContents | internal/repository/container_repository.go:104-126 | a committed batch keeps every earlier row and stores the j-th created row under the next key plus j, and no other key appears |
| Repository.UnfilteredTotalIsCount | internal/repository/container_repository.go:149-153 | with no filter the listing's total equals the record count |
| Uptime.Window | internal/repository/container_repository.go:360-369 | the window keeps only events timestamped within `[start, end]` |
| Uptime.DistinctHasNoDuplicates | internal/repository/container_repository.go:370-380 | the per-container buckets name each container once |
| Uptime.BucketsCoverEveryEvent | internal/repository/container_repository.go:370-380 | the per-container buckets together count every event in the window exactly once |
| Uptime.RunningCountBounded | internal/repository/container_repository.go:382-393 | a container's running events never outnumber its events |
| Uptime.ContainerRatioBounds | internal/repository/container_repository.go:382-397 | each container's uptime ratio lies in [0, 1] |
| Uptime.MeanUptimeRatioBounds | internal/repository/container_repository.go:398-405 | the mean of the per-container ratios lies in [0, 1] |
| Uptime.MeanUptimeRatioDefined | internal/repository/container_repository.go:398-405 | the mean has a value if and only if the window holds at least one event |
| Uptime.FoldBuckets | internal/repository/container_repository.go:511-523 | the loop over the buckets totals one minute per running event and keys each container's share by its decimal id |
| Uptime.PerMapOfDistinctKeys | internal/repository/container_repository.go:511-523 | with distinct bucket keys, the per-container map has one entry per bucket, each entry is that bucket's minutes, and the entries sum to the total |
| Uptime.PerMapEntries | internal/repository/container_repository.go:511-523 | with distinct bucket keys, each bucket's container appears in the map with that bucket's minutes |
| Uptime.PerMapSizeAndSum | internal/repository/container_repository.go:511-523 | with distinct bucket keys, the map has one entry per bucket and its entries sum to the buckets' total |
| Uptime.KeyNotInPerMap | internal/repository/container_repository.go:511-523 | a container none of whose buckets is present has no entry in the map |
| Uptime.RunningBucketsTotal | internal/repository/container_repository.go:462-483 | the running-event buckets count exactly the running events of the window |
| Uptime.RunningBucketsDistinct | internal/repository/container_repository.go:470-483 | the running-event buckets have distinct keys |
| Uptime.NatToStringInjective | internal/repository/container_repository.go:516 | different containers get different decimal keys |
| Uptime.FloatKeyIsDecimalBelowOneMillion | internal/repository/container_repository.go:516 | formatting the bucket key as a float agrees with its decimal text if and only if the id is below 1000000 |
| Uptime.FloatKeyOfOneMillion | internal/repository/container_repository.go:516 | container 1000000 is keyed `1e+06`, not `1000000` |
| StatusLog.AddStatusVerdict | internal/repository/container_repository.go:293-330 | a status other than `running` or `stopped` is refused before the index is contacted; otherwise the outcome is that of the index request |
| StatusLog.StatusIndex.AddContainerStatus | internal/repository/container_repository.go:293-330 | a successful write appends exactly one `{id, status, timestamp}` event; a refused or failed one leaves the log unchanged |
| StatusLog.StatusIndex.GetContainerUptimeRatio | internal/repository/container_repository.go:354-441 | `start > end` is refused; request, status and decode errors are reported; otherwise the answer is the mean uptime ratio of the window, in [0, 1], and an empty window panics |
| StatusLog.StatusIndex.GetContainerUptimeDuration | internal/repository/container_repository.go:443-524 | the total is one minute per running event in the window; each container with running events gets its count of minutes under its decimal key; the per-container values sum to the total; an undecodable answer panics |
| Runtime.IdForInjective | internal/model/container.go:7 | runtime ids handed out for different calls differ |
| Service.ImageChange | internal/service/container_service.go:103-104 | an image change is asked for if and only if the patch names `image_name` with a non-empty text that differs from the current image, and that text is the new image |
| Service.FirstFailure | internal/service/container_service.go:103-132 | the first failing runtime call of a plan is found, and no call before it fails |
| Service.ScanRowsAccounts | internal/service/container_service.go:197-226 | every data row becomes either exactly one container to create or exactly one error; containers to create come from complete rows and are `running`; the runtime sees only starts, at most one per row |
| Service.ContainerService.StartRows | internal/service/container_service.go:197-226 | the row loop makes exactly the runtime calls, and collects exactly the containers and row errors, that the scan of the data rows describes |
| Service.ContainerService.StoreRows | internal/service/container_service.go:242-271 | a repository error fails every container with a "(repository error)" item after the row errors and leaves the table; on success every earlier record is kept, the new records take consecutive fresh keys, each is one of the containers to create stored as `Inserted` at that key and time, and the i-th success item is the i-th new record |
| Service.BatchStored | internal/service/container_service.go:242-271 | after a committed batch the table is the old one plus one record per success item, under consecutive fresh keys, each made from a container of the batch |
| Service.BatchNewRows | internal/service/container_service.go:255-268 | the i-th new key holds the i-th created record, which comes from a container of the batch and is reported by the i-th success item |
| Service.RepositoryFailItems | internal/service/container_service.go:245-248 | one `<name> (repository error)` item per container the store did not take, in order |
| Service.AssembleImportResult | internal/service/container_service.go:255-268 | the success items are the stored containers; the failed items are the row errors followed by the store's rejects; each count equals its list's length |
| Service.RepositoryErrorResult | internal/service/container_service.go:242-253 | after a store error nothing succeeded; the failed items are the row errors and every container to create, while the failed count counts only the containers |
| Service.ContainerService.CreateContainer | internal/service/container_service.go:47-74 | a start failure writes nothing; a store failure stops the just-started container once and reports the store error; a success records the container as `running` under its runtime id |
| Service.ContainerService.UpdateContainer | internal/service/container_service.go:87-142 | a rename is refused; a missing record is reported; the runtime calls of the plan run in order until the first failure, which is reported with its context and leaves the table unchanged; a completed restart puts the new runtime id into the patch even when the status call then fails; otherwise the patch, carrying any new runtime id, is written |
| Service.ContainerService.AlignRuntime | internal/service/container_service.go:103-132 | the runtime receives the restart calls up to the first failing one or, after a complete restart, the status call too; the outcome names the failing call; the patch keeps its entries when the restart fails and otherwise carries the new runtime id, even when the status call then fails |
| Service.AlignFollowsPlan | internal/service/container_service.go:103-132 | the calls an update makes are its plan up to and including the first failing call, or the whole plan when none fails, and a failure is reported under that call's context |
| Service.ContainerService.RestartWithImage | internal/service/container_service.go:103-118 | a new image means stop, remove and start, in that order, until a call fails; only after all three succeed is the new runtime id put into the patch |
| Service.ContainerService.IssueStatusCall | internal/service/container_service.go:120-132 | exactly one start or stop call is made, and its failure is reported with its context |
| Service.ContainerService.DeleteContainer | internal/service/container_service.go:144-173 | a missing record makes no runtime call; otherwise stop, then remove, then delete the record; the first failure ends it and nothing already done is undone |
| Service.ContainerService.ImportContainers | internal/service/container_service.go:175-272 | fewer than two rows import nothing; otherwise one start per complete row, then the started containers go to the store as one batch; the result accounts for every row; a stored batch adds exactly its success items to the table under fresh consecutive keys and keeps every earlier record |
| Service.ContainerService.ViewAllContainers | internal/service/container_service.go:76-85 | the listing is the repository's, and its error is wrapped |
| Service.ContainerService.ExportContainers | internal/service/container_service.go:274-279 | the exported rows are exactly the listing's page |
| Service.ContainerService.GetAllContainers | internal/service/container_service.go:339-346 | every record appears with its key and name, exactly once, and nothing else; a failure is wrapped |
| Service.ContainerService.AddContainerStatus | internal/service/container_service.go:348-356 | the event is appended if and only if the index accepts it; the error is wrapped |
| Service.ContainerService.GetNumContainers | internal/service/container_service.go:358-367 | the number of records, or the wrapped count error |
| Service.ContainerService.GetNumRunningContainers | internal/service/container_service.go:369-378 | the number of `running` records, never more than the total, or the wrapped count error |
| Service.ContainerService.GetContainerUptimeRatio | internal/service/container_service.go:380-389 | the mean uptime ratio over the window, in [0, 1]; a reversed window is a wrapped error |
| Service.ImageChangeOrder | internal/service/container_service.go:103-118 | an image change starts the plan with stop, remove and start on the record's runtime id and name |
| Service.StatusCallComesLast | internal/service/container_service.go:120-132 | a status change adds one start or stop on the record's original runtime id, as the last call of the plan |
| Service.OtherStatusStoredWithoutCall | internal/service/container_service.go:120-138 | a status other than `running` or `stopped` makes no runtime call but is still stored |
| Service.UpdateKeepsName | internal/service/container_service.go:88-91 | with the corrected guard a stored update never renames, and a new image comes with the new runtime id |
| Service.NameGuardBypass | internal/service/container_service.go:88-91 | as written, `{"ContainerName": "x"}` passes the guard and the store renames the container |
| Ingestion.StatusText | internal/delivery/kafka/kafka_consumer_handler.go:56-59 | `true` maps to `running` and `false` to `stopped`, always a known status |
| Ingestion.StatusPatch | internal/delivery/kafka/kafka_consumer_handler.go:61-63 | the update a message asks for names the status and nothing else |
| Ingestion.StatusPatchPlan | internal/delivery/kafka/kafka_consumer_handler.go:61-65 | a status message never renames or restarts; it needs one start, one stop, or no call when the status is already right |
| Ingestion.StatusPatchApplies | internal/delivery/kafka/kafka_consumer_handler.go:61-65 | a status message changes the status and `updated_at` and keeps every other column |
| Ingestion.EveryReadAccounted | internal/delivery/kafka/kafka_consumer_handler.go:34-40 | every read either hands on exactly one message or is a read error |
| Ingestion.StartConsume | internal/delivery/kafka/kafka_consumer_handler.go:27-83 | the loop hands on the messages read before cancellation, in order, skips read errors, and returns the cancellation error |
| Ingestion.Close | internal/delivery/kafka/kafka_consumer_handler.go:85-92 | closing reports the reader's close error, unchanged, or nothing |
| Ingestion.RecordedEvents | internal/delivery/kafka/kafka_consumer_handler.go:72-77 | a run of messages records at most one event per message, each with a known status |
| Ingestion.KafkaConsumerHandler.UpdateStatus | internal/delivery/kafka/kafka_consumer_handler.go:61-69 | for a stored record the runtime gets exactly the plan's start or stop call (at most one), also when the store write then fails; success changes only the status and `updated_at` of that record; failure leaves the record as it was |
| Ingestion.StatusUpdateVerdict | internal/delivery/kafka/kafka_consumer_handler.go:61-69 | a status-only update of a stored row renames nothing, stores its patch unchanged, and on success changes only the status and `updated_at` |
| Ingestion.KafkaConsumerHandler.HandleMessage | internal/delivery/kafka/kafka_consumer_handler.go:40-80 | a body that does not decode is dropped with no effect; a failed update records no event; an event is recorded if and only if the update worked and the index accepted it |
| Ingestion.KafkaConsumerHandler.HandleUnder | internal/delivery/kafka/kafka_consumer_handler.go:40-80 | one message is dropped exactly when malformed, and the index grows by its event exactly when it is recorded |
| Ingestion.HandledStep | internal/delivery/kafka/kafka_consumer_handler.go:40-80 | handling one more message keeps the run's account: one outcome per message and the recorded events appended in message order |
| Ingestion.HandledPrefix | internal/delivery/kafka/kafka_consumer_handler.go:40-80 | the account of a prefix of the run gives one outcome per handled message, no crash before the last, and the recorded events of that prefix appended |
| Ingestion.KafkaConsumerHandler.HandleNext | internal/delivery/kafka/kafka_consumer_handler.go:40-80 | handling the next message of a run with no crash so far extends the run's account by that message's outcome |
| Ingestion.KafkaConsumerHandler.HandleAll | internal/delivery/kafka/kafka_consumer_handler.go:40-80 | messages are handled in order until the first crash, which ends the run; of those handled, exactly the undecodable ones are dropped and exactly the recorded events are appended, in message order |
| GrpcHandler.NamesToPb | internal/delivery/grpc/grpc_server_handler.go:38-44 | one wire entry per container, in order: the i-th id is the decimal text of the i-th key, which reads back as that key, and the name is kept |
| GrpcHandler.PbNamesOfTable | internal/delivery/grpc/grpc_server_handler.go:38-49 | wire entries made from a listing of every record once have canonical decimal ids of stored keys with their names, cover every record, and have pairwise distinct ids |
| GrpcHandler.GrpcServerHandler.GetAllContainers | internal/delivery/grpc/grpc_server_handler.go:26-51 | a nil request is refused; a service failure is wrapped twice; otherwise every record appears exactly once, as the decimal text of its key with its name, and every id reads back as a stored key with that name |
| GrpcHandler.InfoGuard | internal/delivery/grpc/grpc_server_handler.go:54-70 | the request passes if and only if it is present and `0 < start < end`; each failure has its message, in guard order |
| GrpcHandler.StoppedCount | internal/delivery/grpc/grpc_server_handler.go:84-87 | stopped plus running equals the total when the counts agree; otherwise it is clamped to zero |
| GrpcHandler.GetContainerInformation | internal/delivery/grpc/grpc_server_handler.go:53-118 | guards first, with no service call; then the total, running and ratio queries in that order until one fails; a ratio outside [0, 1] is refused; success exactly when everything passes, with the counts and ratio as answered |
| GrpcHandler.InformationOverOneState | internal/delivery/grpc/grpc_server_handler.go:72-117 | against one state of the store and the index, a non-empty window always gives a summary whose stopped and running counts add up to the total |
| RestHandler.ServerError | internal/delivery/rest/rest_server_handler.go:33-42 | a failed service call answers 500 |
| RestHandler.Dispatch | internal/delivery/rest/rest_server_handler.go:33-46 | a refused request answers 400 with its message and makes no service call; a passed one makes exactly one call with the checked arguments |
| RestHandler.CreateChecks | internal/delivery/rest/rest_server_handler.go:48-58 | a create request goes on if and only if it decodes and neither name nor image is blank; it goes on with the untrimmed values |
| RestHandler.CreateContainer | internal/delivery/rest/rest_server_handler.go:48-70 | 201 with the new key exactly when the checks pass and the service succeeds; a service failure is 500 |
| RestHandler.ListChecks | internal/delivery/rest/rest_server_handler.go:72-102 | the listing goes on if and only if the filter decodes, `0 <= from <= to < from + 100`, and the upper-cased order is `ASC` or `DESC`; absent parameters take their defaults |
| RestHandler.ViewContainers | internal/delivery/rest/rest_server_handler.go:72-114 | 200 with count and page exactly when the checks pass and the service succeeds |
| RestHandler.ExportContainers | internal/delivery/rest/rest_server_handler.go:233-282 | 200 with the exported rows exactly when the checks pass and the service succeeds |
| RestHandler.DefaultRangeRejected | internal/delivery/rest/rest_server_handler.go:79-94 | with `from` and `to` both left out, the default range 0..100 exceeds the limit, so the listing is refused |
| RestHandler.SortOrderNormalised | internal/delivery/rest/rest_server_handler.go:96-104 | the upper-cased order the service receives means the same direction as the order the client sent |
| RestHandler.IdChecks | internal/delivery/rest/rest_server_handler.go:117-127 | an id goes on if and only if it is decimal text below 2^64; an empty id and a malformed id get their own messages |
| RestHandler.IdChecksAcceptFormattedKeys | internal/delivery/rest/rest_server_handler.go:117-127 | every key the service hands out is accepted back as its decimal text |
| RestHandler.UpdateChecks | internal/delivery/rest/rest_server_handler.go:116-138 | an update goes on if and only if the id parses and the body decodes to a non-empty object |
| RestHandler.UpdateContainer | internal/delivery/rest/rest_server_handler.go:116-151 | 200 with the key and the updated record exactly when the checks pass and the service succeeds |
| RestHandler.DeleteContainer | internal/delivery/rest/rest_server_handler.go:153-175 | 200 exactly when the id parses and the service succeeds |
| RestHandler.XlsxNameIgnoresCase | internal/delivery/rest/rest_server_handler.go:194 | the file-type test does not depend on the case of the file name |
| RestHandler.ImportChecks | internal/delivery/rest/rest_server_handler.go:177-197 | an upload goes on if and only if it is present, non-empty, at most 10 MB, and named `.xlsx` in any case; each refusal has its message |
| RestHandler.ImportContainers | internal/delivery/rest/rest_server_handler.go:177-231 | the service is called if and only if the checks pass and the file can be read; 200 with the import result exactly when the service returns one |

## Left out

- Spreadsheet parsing and writing are not modelled. An import receives the sheet's rows already decoded as text. An export returns the rows it would write, not the workbook bytes or the generated file name.
- The search query is not modelled as JSON. The model states what the aggregations compute: the time range, the terms buckets and their average. The 10000-bucket size of the terms aggregation is not modelled.
- Uptime ratios are exact rationals. The model does not capture floating-point rounding or the gRPC reply's `float32` conversion.
- The gRPC reply's `int64` counts are not modelled; counts are unbounded.
- `LIKE '%v%'` filters are modelled as substring tests. `%` and `_` inside a filter value are not treated as wildcards.
- Rows that tie on the sort column come out in input order (an insertion sort). The database promises no order for ties.
- A rolled-back insert restores the next key. A PostgreSQL sequence would leave a gap.
- The name listing (`GetContainerInfo` and the gRPC `GetAllContainers`) comes out in ascending key order in the model. The SQL query has no `ORDER BY`, so the contracts promise only that every record appears exactly once, not an order.
- The consumer runs its message handlers one after another. It does not model the goroutine per message, their interleaving, or the context the handlers share.
- The clock is a parameter (`now`); there is no `time.Now`.
- The REST and gRPC times arrive as integers.
- Logging is left out everywhere.
- Case mapping covers ASCII letters only; Go's `strings.ToUpper`/`ToLower` also map other letters. Whitespace trimming covers the full `unicode.IsSpace` set.
- A patch value that is not a string makes the update fail in the model (`ApplyPatch` gives `None`). The store's own behaviour on such values is not modelled.
- The nil-result branches are unreachable in the model:
  - the service's nil container checks (internal/service/container_service.go:98-101 and 151-154);
  - the REST handler's nil import result and nil export data (internal/delivery/rest/rest_server_handler.go:218-221 and 271-274).

  They are reachable in Go only through a nil result with a nil error, which no repository path returns. `RestHandler.ImportContainers` still takes an optional result and answers the nil case.
- Service.ContainerService.ImportContainers: the two branches for "nothing to create" (container_service.go:228-240) give the same result and are one case in the model.
- Service.ContainerService.UpdateContainer: the runtime is driven only by the keys `image_name` and `status`. The field-name spellings `ImageName` and `Status`, which the store still maps to those columns, reach the store without a runtime call, as in the code.
- StatusLog.StatusIndex.GetContainerUptimeRatio: an empty window panics in the code on a nil type assertion. The model gives the `Panic` outcome and does not model the process crash.
- StatusLog.StatusIndex.GetContainerUptimeDuration: a response that does not decode is the `Panic` outcome, because the code ignores the decode error and reads nil buckets.
- Store error texts after the `%w` prefix (database driver messages) are not modelled. Only the repository's own prefixes are.
- JSON binding in the REST handler is abstracted: a body either decodes (`Some`) or does not (`None`). Validation tags other than `required` are not modelled.
- The Kafka message body is either `Malformed` or a decoded status change. The reader is a sequence of read results, and cancellation is the index of the read it precedes.
- Authentication middleware, routing, configuration, Redis and the process entry points are not part of this model.
- The ratio query rejects only `start > end`, as the code does (internal/repository/container_repository.go:354-358).
- Service.ContainerService.UpdateContainer: models the corrected rename guard of the Findings table, which refuses both `container_name` and `ContainerName`. The code as written checks only `container_name`, and `Service.NameGuardBypass` states what that lets through.
- Uptime.FoldBuckets: keys each container's minutes by the decimal text of its id, the corrected behaviour of the Findings table. The code as written formats the float bucket key with `%v`, which gives `1e+06` from id 1000000 on; `Uptime.FloatKeyOfOneMillion` and `Uptime.FloatKeyIsDecimalBelowOneMillion` state that.
- StatusLog.StatusIndex.GetContainerUptimeDuration: uses `Uptime.FoldBuckets`, so its per-container keys are decimal text for every id, not the `%v` float text the code writes for ids of 1000000 and more.
- Repository.ContainerTable.UpdateContainer: a patch naming `id`/`ID`, `created_at`/`CreatedAt` or `updated_at`/`UpdatedAt` fails in the model. gorm would write those columns, and a given `updated_at` would replace the automatic stamp. The values arrive as JSON text whose conversion to a key or a time belongs to the database, which is not modelled.
- Repository.ContainerTable.CreateManyContainers: inserts fail independently of each other, as the code's loop and its tests expect. Under PostgreSQL the first failed statement aborts the transaction, so every later insert and the commit fail too. The failure parameters allow those runs, but the model does not force them, so it does not promise that a partial batch ends in a commit error.
- Repository.ContainerTable.ViewAllContainers: text columns sort by code point (`Text.TextLessEq`). The database sorts them by its collation, which is not modelled.

## Findings

| source | as written | input that shows it | evidently intended | confidence | as-written member | corrected member |
|---|---|---|---|---|---|---|
| internal/service/container_service.go:88-91 | the rename guard looks for the key `container_name` only, while the store also resolves the field name `ContainerName` to the name column | an update body `{"ContainerName": "x"}` for a container not named `x` | any key that the store maps to the name column is refused | not executed | Service.NameGuardBypass | Service.UpdateKeepsName |
| internal/repository/container_repository.go:516 | the per-container uptime key is formatted with `%v` from the float64 bucket key | a container with id 1000000 and running events is keyed `1e+06` | the key is the container id's decimal text | not executed | Uptime.FloatKeyOfOneMillion | Uptime.PerMapOfDistinctKeys |
