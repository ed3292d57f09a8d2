# alli-lister: a Dafny model of the Lambda inventory core

alli-lister is a command-line tool that lists every AWS Lambda function in one
region, or in all regions, and writes the inventory as a CSV file. For each function
it also records a "last invoked" time. That time is the `LastEventTimestamp` of the
single log stream that its DescribeLogStreams query returns for the function's log
group. The query asks for one stream in ascending order of last event time, so the
stream returned is the one whose last event is oldest. It is not necessarily the
function's latest invocation. This project models the tool's core
and proves properties about it:

- **Collection** (`collector.dfy`, module `Collector`) models
  `getAllLambdaFunctionsDetails` in `cmd.go`. For each Lambda client in order, it
  requests `ListFunctions` pages until a page has no `NextMarker`, turning every
  function descriptor into a record tagged with the client's region. The first
  failing request aborts the whole collection.
  - The Lambda service is an input. `scripts[k][j]` is the answer to the `j`-th
    request made through client `k`.
  - The method also returns `sent`, the `Marker` carried by every request it made.
    The marker properties are stated over `sent`.
- **Enrichment** (`enricher.dfy`, module `Enricher`) models
  `getAllLambdaFunctionsLastInvokeTime` and its worker
  `getLambdaFunctionLastInvokeTime`. One job is built per record: its name, its
  region and its position in the list. Each job is looked up in CloudWatch Logs
  under `/aws/lambda/<name>`, and the outcome is written into that record's
  `LastInvoked` cell of the shared list.
  - The shared list is an `array`.
  - The log backend is a function from (log group name, region) to a
    `LookupOutcome`.
  - The worker pool is modelled as one sequential worker. It takes the jobs in an
    order given by a scheduler input, which may be any permutation of the built jobs.
- **Records and titles** (`lambda.dfy`, module `Lambda`) models the
  `lambdaFunction` record and `getTitleFields`, which yields the struct's `title`
  tags in declaration order.
- **Entry logic** (`app.dfy`, module `App`) models four parts of `main.go`:
  - `initializeApplication`: choosing the regions and creating one client per
    region.
  - `getFileName`.
  - The CSV layout: the header from the title tags, then one row of eight cells per
    record.
  - `main`, which runs the stages in turn and stops at the first fatal error.
- `wrappers.dfy` holds the `Option` and `Result` datatypes.

### Behaviour modelled as written

Four places where the code behaves differently from what one might expect. The model
follows the code in each.

- **The marker is shared across regions.** One `ListFunctionsInput` is created
  before the loop over clients and is never reset. So the first request in a region
  carries the last `NextMarker` read in the regions before it, or no marker if none
  of them had one (`Collector.SharedMarker`). `Collector.StaleMarkerExample` shows a
  concrete run where the second region's first request carries the first region's
  marker.
- **There is no `Region` column title.** Collection (`cmd.go:56`) and the export
  (`main.go:101`) both use a `Region` field, but the `lambdaFunction` struct
  (`lambda.go:7-15`) does not declare one. The sources therefore do not build as
  they stand. The same is true of `main.go:173`, which calls a method that `aws.go`
  does not define.
  - The model reads the struct as declared. The record type carries `Region`, but the
    titles are the seven declared tags.
  - The header therefore has seven titles while each row has eight cells.
  - From the second column on, each title sits above the field to the left of the one
    it names (`App.HeaderRowMisaligned`).
  - Had an untagged `Region` field been added, reflection would yield eight titles,
    one of them the empty string. That reading is not modelled.
- **An empty inventory writes no header.** `main` reads element 0 of the list for the
  titles. With no functions the Go program fails there, after the output file was
  created and before anything is written. This is `App.RunOutcome.EmptyInventory`.
- **A failed lookup leaves the cell empty.** Three cases write nothing:
  - An `OperationError` other than "log group does not exist" is ignored silently
    (`cmd.go:136-143`).
  - An error that is not an `OperationError` is logged (`cmd.go:144-149`).
  - A first stream with no `LastEventTimestamp` is skipped.

  In each of these cases the cell keeps its initial value, the empty string. `"-"` is written only when the log group is
  missing or has no streams (`Enricher.NewLastInvokedPolicy`).

## Model

| member | source | states |
|---|---|---|
| Lambda.DeclaredFields | lambda.go:7-15 | the record type declares exactly seven tagged fields |
| Lambda.TitleFields | lambda.go:19-29 | one title per declared field, equal to that field's tag, in declaration order |
| Lambda.GetTitleFields | lambda.go:19-29 | the loop over the struct's fields returns exactly the declared tags in order, whatever the receiver's values |
| Lambda.TitleFieldsAreTheSevenTags | lambda.go:8-14 | the title list is "Function Name", "Function ARN", "Function Description", "Last Modified", "IAM Role", "Runtime", "Last Invoked" |
| Lambda.NoRegionTitle | lambda.go:7-15 | no declared field is Region and no title names it |
| Collector.FromConfiguration | cmd.go:54-62 | the record built from one descriptor; its fields are pinned by the contract of Convert |
| Collector.StopIndex | cmd.go:47-72 | the position of the first response that ends a region's loop: an error or a page without NextMarker |
| Collector.BeforeStop | cmd.go:67-69 | every response before the stopping one is a page with a NextMarker, so the loop goes on |
| Collector.Convert | cmd.go:53-62 | one record per descriptor, in order, each with the client's region, the descriptor's name, ARN, description, last-modified time, role and runtime, and an empty LastInvoked |
| Collector.AppendPage | cmd.go:53-65 | appending one page leaves the earlier list as a prefix, followed by the page's records in descriptor order |
| Collector.PageLoopFrom | cmd.go:47-73 | the page loop of one client from its j-th request on, as a function of its responses; its records, requests, final marker and error are stated by the PageLoopFrom lemmas below |
| Collector.PageLoop | cmd.go:47-73 | the page loop of one client from its first request, with the marker the shared request holds on entry |
| Collector.PageLoopFromError | cmd.go:48-51 | a region's loop fails exactly when its stopping response is an error, and with that error |
| Collector.PageLoopFromRecords | cmd.go:47-73 | when a region's listing does not fail, its records are the descriptors of every page it reads, in order, tagged with the region |
| Collector.PageLoopFromSent | cmd.go:47-73 | a region's loop makes one request per response it reads; the first carries the marker it started with, each later one the NextMarker of the page before |
| Collector.PageLoopFromMarker | cmd.go:67-69 | the marker a region leaves in the shared request is the last NextMarker it read, or the one it started with |
| Collector.CollectFrom | cmd.go:42-74 | collection over the clients from the k-th on, as a function of their responses; characterized by CollectFromFailure, CollectFromSuccess and CollectFromFirstMarker |
| Collector.Collect | cmd.go:39-80 | collection over all clients with the request value starting without a marker; characterized by CollectFailsIff, CollectIsConcatenation and SharedMarker |
| Collector.FirstFailure | cmd.go:48-51 | the first client whose listing fails; every client before it succeeds |
| Collector.CollectFromFailure | cmd.go:42-51 | collection from any client on fails exactly when a later client's listing fails, with the first such error, and requests through no client after it |
| Collector.BlocksLength | cmd.go:53-65 | the clients' blocks hold as many records as their pages hold descriptors |
| Collector.CollectFromSuccess | cmd.go:42-80 | with no failing client, collection yields every client's block in client order, after requesting through every client |
| Collector.CollectFromFirstMarker | cmd.go:40-72 | the first request through each client carries the last NextMarker read through the clients before it |
| Collector.CollectFailsIff | cmd.go:42-51 | getAllLambdaFunctionsDetails fails if and only if some region's listing fails; the error is the first failing region's, and no later region is asked |
| Collector.CollectIsConcatenation | cmd.go:39-80 | on success the inventory is the clients' blocks in client order, and within a client pages in response order; its length is the total page size |
| Collector.SharedMarker | cmd.go:40-72 | the request value is not reset between regions: the first request through client k carries the last NextMarker read through clients 0 to k-1, or none |
| Collector.StaleMarkerExample | cmd.go:40-72 | a two-region run in which the second region's first request carries the first region's last marker |
| Collector.ListRegion | cmd.go:47-73 | the page loop of one client appends exactly the region's records, leaves the region's last marker in the request, records the markers sent and reports the stopping error |
| Collector.GetAllLambdaFunctionsDetails | cmd.go:36-81 | the method's result and requests are those of the collection function, whose properties are the lemmas above |
| Enricher.LogGroupName | cmd.go:117 | the log group name is the prefix "/aws/lambda/" followed by the function name |
| Enricher.MillisToSeconds | cmd.go:158 | millisecond timestamps become seconds with Go's truncation toward zero |
| Enricher.MillisToSecondsTruncates | cmd.go:158 | -1500 ms becomes -1 s, where Euclidean division would give -2 |
| Enricher.NewLastInvoked | cmd.go:134-169 | the new LastInvoked value for a lookup outcome; its cases are stated by NewLastInvokedPolicy |
| Enricher.Enrich | cmd.go:116-169 | a record after its job was looked up: only LastInvoked changes, to NewLastInvoked of the job's log group and region |
| Enricher.Step | cmd.go:116-169 | the list after one job: the job's cell enriched; StepTouchesOneCell states that nothing else changes |
| Enricher.ApplyAll | cmd.go:113-171 | the jobs processed one after another in the given order; the list keeps its length, and ApplyAllAt and ApplyAllElsewhere state each cell's result |
| Enricher.Enriched | cmd.go:84-171 | the order-free reference result: every record enriched from a lookup of its own name in its own region, the list's length kept |
| Enricher.Scheduled | cmd.go:101-104 | the jobs in the order the workers take them: one job per entry of the order, the job at that position |
| Enricher.NewLastInvokedPolicy | cmd.go:134-169 | the cell becomes "-" for a missing log group or no streams, the formatted time of the first stream when it has a timestamp, and is left unchanged on any other error or when that timestamp is absent |
| Enricher.OutcomesDistinguishable | cmd.go:134-169 | starting from the empty value, and when formatting yields neither "" nor "-", "-" happens exactly for no history and "" exactly for a failed or timestamp-less lookup |
| Enricher.NewLastInvokedIdempotent | cmd.go:134-169 | applying the same lookup outcome twice gives the same value as applying it once |
| Enricher.StepTouchesOneCell | cmd.go:116-169 | processing a job changes only the LastInvoked field of the cell at the job's index |
| Enricher.JobIndicesArePositions | cmd.go:91-99 | the built jobs carry the positions 0 to N-1, each once |
| Enricher.ApplyAllElsewhere | cmd.go:113-171 | processing jobs leaves every cell that no job names unchanged |
| Enricher.ApplyAllAt | cmd.go:113-171 | with distinct in-range indices, each named cell ends enriched by its own job, in any order |
| Enricher.ScheduleOfJobs | cmd.go:91-104 | taken in any permutation of their positions, the built jobs have distinct in-range indices and every built job is taken |
| Enricher.PoolResult | cmd.go:84-107 | whatever order the workers take the jobs in, the list ends as every record enriched from a lookup of its own name in its own region |
| Enricher.OrderIndependent | cmd.go:84-107 | two processing orders of the jobs give the same final list |
| Enricher.EnrichedIdempotent | cmd.go:113-171 | enriching an enriched list against the same backend changes nothing |
| Enricher.BuildJobs | cmd.go:91-99 | one job per record in list order, with the record's name, region and position |
| Enricher.ProcessJob | cmd.go:116-169 | one worker iteration writes the policy's outcome into the job's cell and changes nothing else |
| Enricher.GetAllLambdaFunctionsLastInvokeTime | cmd.go:84-107 | after all jobs are processed, in any order that permutes their positions, the array holds every record enriched from its own lookup |
| App.NatToString | main.go:209 | the decimal digits of a natural number: non-empty, all digits, and no leading zero except for 0 itself |
| App.FormatInt | main.go:209 | the `%d` text of an integer: non-empty, starting with a minus sign exactly for negatives |
| App.NatToStringRoundTrip | main.go:209 | the decimal text of a natural number reads back as that number |
| App.FormatIntRoundTrip | main.go:209 | the `%d` text of any integer, with a sign for negatives, reads back as that integer |
| App.GetFileName | main.go:207-213 | the file name is never empty, and a given name is used unchanged |
| App.GetFileNameDefault | main.go:207-213 | without a given name the file is the Unix time followed by ".csv", and its stem reads back as that time; naming is idempotent |
| App.ChosenRegions | main.go:171-184 | the discovered regions in all-regions mode, the configured region alone otherwise; its outcome for each mode is stated by InitializeApplication's contract |
| App.InitializeApplication | main.go:158-203 | in all-regions mode a discovery error is fatal, and otherwise there is one client per discovered region in order; without all-regions there is one client, for the configured region |
| App.CsvRow | main.go:99-108 | a row has eight cells |
| App.CsvRowRoundTrip | main.go:99-108 | a row holds exactly the record's eight fields: record and row convert back and forth losslessly |
| App.HeaderRowMisaligned | main.go:90-108 | the header has seven titles and rows eight cells; column 1 is titled "Function ARN" but holds the region, and column 6 is titled "Last Invoked" but holds the runtime |
| App.WriteCsv | main.go:90-117 | the writer receives the titles, then one row per record in list order |
| App.ClientsFor | main.go:188-197 | one client per region, in order: the regions of the clients are the given regions |
| App.Run | main.go:37-123 | main stops with the profile error, then the region error, then the listing error; an empty inventory fails before any write; otherwise the titles are followed by one row per enriched record under the chosen file name, whatever order the workers take the jobs in |

## Left out

- The AWS SDK calls are inputs rather than modelled services: `LoadDefaultConfig`, `ListFunctions`, `DescribeLogStreams` and client construction. Credentials, retry and pagination limits are not modelled.
- Region discovery (`getAllOptedInRegions`) is an input result. aws.go is not part of this model. The function that file defines is named `getAllAvailableRegions`, not the name `main.go` calls.
- Goroutines, the buffered `jobs` channel, the `WaitGroup`, the `-max-workers` setting and data races are not modelled. The pool is one worker taking the jobs in the order given by a scheduler input, which may be any permutation. Three consequences are outside the model:
  - The Go code fills the channel before it starts any worker, so it blocks when there are more functions than `maxWorkers`.
  - A `maxWorkers` of zero blocks at the first send (`cmd.go:98`) whenever there is at least one function.
  - A negative `maxWorkers` panics when the channel is made (`cmd.go:89`).
- The options of the worker's DescribeLogStreams query (`cmd.go:119-124`: order by last event time, ascending, limit 1) are part of the `lookup` input. So "the first stream" in `Enricher.NewLastInvoked` means the single stream that query returns, the one whose last event is oldest.
- The error classification in the worker (`errors.As`, the operation name, the substring "The specified log group does not exist") is collapsed into the four `LookupOutcome` cases.
- Time handling: `time.Now().Unix()` is the `nowUnix` parameter, and `time.Unix(…).Format(…)` into the local time zone is the `format` parameter. The layout string is not modelled.
- Reflection in `getTitleFields` is replaced by the declared field list `Lambda.DeclaredFields`.
- The following are not modelled:
  - Logging, flag parsing and the debug and profile settings.
  - Creating the logger.
  - `os.Create` and its failure, which is only logged.
  - The CSV writer's quoting.
  - Write errors, which are only logged.
  - Flush errors, which are ignored: the deferred `Flush` (`main.go:88`) is never followed by a check of the writer's error.
- Nil pointers in descriptors (`*functionDetail.Description` and others) are assumed present. The Go code would panic on a nil field.
- The int64 width of timestamps is not modelled. Integers are unbounded.
- Collector.GetAllLambdaFunctionsDetails: requires every client's responses to contain a stopping one (an error or a page without `NextMarker`). A service that pages forever makes the Go loop run forever, and that case is not modelled.
- App.Run: stops at the stage where `main` would stop, with the matching outcome. The Go `Fatalw` exits the process instead.
