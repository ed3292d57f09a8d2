/**
 * Inventory collection (getAllLambdaFunctionsDetails in cmd.go).
 *
 * The Lambda service is an input: for each client, the sequence of answers its
 * ListFunctions requests get, in the order the requests are made.
 */
module Collector {
  import opened Wrappers
  import opened Lambda

  // ---------------------------------------------------------------------------
  // Collection: getAllLambdaFunctionsDetails
  // ---------------------------------------------------------------------------

  /** The fields of a function descriptor that the collector copies. */
  datatype FunctionConfiguration = FunctionConfiguration(
    functionName: string,
    functionArn: string,
    description: string,
    lastModified: string,
    role: string,
    runtime: string)

  /** One page of ListFunctions output. */
  datatype ListFunctionsOutput =
    ListFunctionsOutput(functions: seq<FunctionConfiguration>, nextMarker: Option<string>)

  /** The answer to one ListFunctions request: a page or an error. */
  datatype PageResponse = Page(out: ListFunctionsOutput) | PageError(err: string)

  /** The request value; one is created and shared by every client. */
  datatype ListFunctionsInput = ListFunctionsInput(marker: Option<string>)

  /** A Lambda client is identified by the region in its options. */
  datatype LambdaClient = LambdaClient(region: string)

  /** A response after which a region's page loop does not ask again. */
  predicate Stops(r: PageResponse) {
    r.PageError? || r.out.nextMarker.None?
  }

  /** The client's responses contain a stopping one: the listing ends. */
  predicate HasStop(rs: seq<PageResponse>) {
    exists j :: 0 <= j < |rs| && Stops(rs[j])
  }

  predicate AllStop(scripts: seq<seq<PageResponse>>) {
    forall k :: 0 <= k < |scripts| ==> HasStop(scripts[k])
  }

  /** Position of the first stopping response. */
  function StopIndex(rs: seq<PageResponse>): (j: nat)
    requires HasStop(rs)
    ensures j < |rs| && Stops(rs[j])
  {
    if Stops(rs[0]) then 0
    else
      assert HasStop(rs[1..]) by {
        var j :| 0 <= j < |rs| && Stops(rs[j]);
        assert j > 0 && Stops(rs[1..][j - 1]);
      }
      1 + StopIndex(rs[1..])
  }

  /** No response before the first stopping one stops the loop. */
  lemma {:induction false} BeforeStop(rs: seq<PageResponse>, i: nat)
    requires HasStop(rs) && i < StopIndex(rs)
    ensures rs[i].Page? && rs[i].out.nextMarker.Some?
  {
    if i > 0 {
      assert HasStop(rs[1..]) && StopIndex(rs) == 1 + StopIndex(rs[1..]);
      BeforeStop(rs[1..], i - 1);
    }
  }

  /** The record built from one descriptor returned by the client of `region`. */
  function FromConfiguration(d: FunctionConfiguration, region: string): LambdaFunction {
    LambdaFunction(Name := d.functionName, Region := region, Arn := d.functionArn,
                   Description := d.description, LastModified := d.lastModified,
                   IamRole := d.role, Runtime := d.runtime, LastInvoked := "")
  }

  /** The records of a page's descriptors, in page order, tagged with `region`. */
  function Convert(region: string, ds: seq<FunctionConfiguration>): (recs: seq<LambdaFunction>)
    ensures |recs| == |ds|
    ensures forall i :: 0 <= i < |ds| ==> recs[i] == FromConfiguration(ds[i], region)
  {
    seq(|ds|, i requires 0 <= i < |ds| => FromConfiguration(ds[i], region))
  }

  /** What one client's page loop produces, starting from the shared marker. */
  datatype RegionRun = RegionRun(
    records: seq<LambdaFunction>,   // records appended by this region
    sent: seq<Option<string>>,      // the Marker of each request, in order
    marker: Option<string>,         // the shared Marker when the loop ends
    error: Option<string>)          // the page error that ended it, if any

  /** The page loop of one client from its `j`-th request on, as a function of its
      responses; `marker` is the shared request Marker at that point. */
  function PageLoopFrom(region: string, rs: seq<PageResponse>, j: nat, marker: Option<string>): RegionRun
    requires HasStop(rs) && j <= StopIndex(rs)
    decreases StopIndex(rs) - j
  {
    match rs[j]
    case PageError(e) => RegionRun([], [marker], marker, Some(e))
    case Page(out) =>
      if out.nextMarker.Some? then
        assert !Stops(rs[j]);
        var rest := PageLoopFrom(region, rs, j + 1, out.nextMarker);
        RegionRun(Convert(region, out.functions) + rest.records, [marker] + rest.sent,
                  rest.marker, rest.error)
      else
        RegionRun(Convert(region, out.functions), [marker], marker, None)
  }

  /** The whole page loop of one client. */
  function PageLoop(region: string, rs: seq<PageResponse>, marker: Option<string>): RegionRun
    requires HasStop(rs)
  {
    PageLoopFrom(region, rs, 0, marker)
  }

  /** The result of collection and the markers sent through each client. */
  datatype Inventory = Inventory(
    result: Result<seq<LambdaFunction>, string>,
    sent: seq<seq<Option<string>>>)

  function PrependRecords(recs: seq<LambdaFunction>, r: Result<seq<LambdaFunction>, string>)
    : Result<seq<LambdaFunction>, string>
  {
    match r
    case Success(rest) => Success(recs + rest)
    case Failure(e) => Failure(e)
  }

  lemma PrependNothing(r: Result<seq<LambdaFunction>, string>)
    ensures PrependRecords([], r) == r
  {
    if r.Success? { assert [] + r.value == r.value; }
  }

  lemma PrependTwice(a: seq<LambdaFunction>, b: seq<LambdaFunction>, r: Result<seq<LambdaFunction>, string>)
    ensures PrependRecords(a, PrependRecords(b, r)) == PrependRecords(a + b, r)
  {
    if r.Success? { assert a + (b + r.value) == (a + b) + r.value; }
  }

  /** Collection over the clients from the `k`-th on, as a function of the responses;
      `marker` is the shared request Marker when client `k` starts. */
  function CollectFrom(clients: seq<LambdaClient>, scripts: seq<seq<PageResponse>>, k: nat,
                       marker: Option<string>): Inventory
    requires |clients| == |scripts| && AllStop(scripts) && k <= |clients|
    decreases |clients| - k
  {
    if k == |clients| then Inventory(Success([]), [])
    else
      var run := PageLoop(clients[k].region, scripts[k], marker);
      if run.error.Some? then Inventory(Failure(run.error.value), [run.sent])
      else
        var rest := CollectFrom(clients, scripts, k + 1, run.marker);
        Inventory(PrependRecords(run.records, rest.result), [run.sent] + rest.sent)
  }

  /** Collection as getAllLambdaFunctionsDetails runs it: the request value starts
      with no marker and is shared by every client. */
  function Collect(clients: seq<LambdaClient>, scripts: seq<seq<PageResponse>>): Inventory
    requires |clients| == |scripts| && AllStop(scripts)
  {
    CollectFrom(clients, scripts, 0, None)
  }

  // ---------------------------------------------------------------------------
  // Reference definitions and properties of collection
  // ---------------------------------------------------------------------------

  /** The descriptors a response carries (none for an error). */
  function FunctionsOf(r: PageResponse): seq<FunctionConfiguration> {
    if r.Page? then r.out.functions else []
  }

  /** The NextMarker a response carries (none for an error). */
  function NextMarkerOf(r: PageResponse): Option<string> {
    if r.Page? then r.out.nextMarker else None
  }

  /** The descriptors of responses `lo` to `hi - 1`, concatenated in order. */
  function AllFunctions(rs: seq<PageResponse>, lo: nat, hi: nat): seq<FunctionConfiguration>
    requires lo <= hi <= |rs|
    decreases hi - lo
  {
    if lo == hi then [] else FunctionsOf(rs[lo]) + AllFunctions(rs, lo + 1, hi)
  }

  /** The sum of the page sizes of responses `lo` to `hi - 1`. */
  function PageSizes(rs: seq<PageResponse>, lo: nat, hi: nat): nat
    requires lo <= hi <= |rs|
    decreases hi - lo
  {
    if lo == hi then 0 else |FunctionsOf(rs[lo])| + PageSizes(rs, lo + 1, hi)
  }

  /** The region's listing ends in an error. */
  predicate RegionFails(rs: seq<PageResponse>)
    requires HasStop(rs)
  {
    rs[StopIndex(rs)].PageError?
  }

  /** The last present marker of `ms`, or `m` when none is present. */
  function LastSome(m: Option<string>, ms: seq<Option<string>>): Option<string> {
    if ms == [] then m
    else if ms[|ms| - 1].Some? then ms[|ms| - 1]
    else LastSome(m, ms[..|ms| - 1])
  }

  /** The NextMarkers of the responses a client's page loop reads, in order. */
  function ConsumedMarkers(rs: seq<PageResponse>): (ms: seq<Option<string>>)
    requires HasStop(rs)
    ensures |ms| == StopIndex(rs) + 1
  {
    seq(StopIndex(rs) + 1, i requires 0 <= i <= StopIndex(rs) => NextMarkerOf(rs[i]))
  }

  /** The NextMarkers read by the clients `lo` to `hi - 1`, in client order. */
  function MarkersRead(scripts: seq<seq<PageResponse>>, lo: nat, hi: nat): seq<Option<string>>
    requires AllStop(scripts) && lo <= hi <= |scripts|
    decreases hi - lo
  {
    if lo == hi then [] else ConsumedMarkers(scripts[lo]) + MarkersRead(scripts, lo + 1, hi)
  }

  /** The records of client `k`: its consumed descriptors, tagged with its region. */
  function Block(clients: seq<LambdaClient>, scripts: seq<seq<PageResponse>>, k: nat): seq<LambdaFunction>
    requires |clients| == |scripts| && AllStop(scripts) && k < |clients|
  {
    Convert(clients[k].region, AllFunctions(scripts[k], 0, StopIndex(scripts[k]) + 1))
  }

  /** The blocks of the clients from `k` on, concatenated in client order. */
  function Blocks(clients: seq<LambdaClient>, scripts: seq<seq<PageResponse>>, k: nat): seq<LambdaFunction>
    requires |clients| == |scripts| && AllStop(scripts) && k <= |clients|
    decreases |clients| - k
  {
    if k == |clients| then [] else Block(clients, scripts, k) + Blocks(clients, scripts, k + 1)
  }

  /** The number of descriptors the clients from `k` on return. */
  function TotalSize(scripts: seq<seq<PageResponse>>, k: nat): nat
    requires AllStop(scripts) && k <= |scripts|
    decreases |scripts| - k
  {
    if k == |scripts| then 0 else PageSizes(scripts[k], 0, StopIndex(scripts[k]) + 1) + TotalSize(scripts, k + 1)
  }

  /** The first client from `k` on whose listing fails, or the number of clients. */
  function FirstFailure(scripts: seq<seq<PageResponse>>, k: nat): (f: nat)
    requires AllStop(scripts) && k <= |scripts|
    ensures k <= f <= |scripts|
    ensures f < |scripts| ==> RegionFails(scripts[f])
    ensures forall i :: k <= i < f ==> !RegionFails(scripts[i])
    decreases |scripts| - k
  {
    if k == |scripts| then k
    else if RegionFails(scripts[k]) then k
    else FirstFailure(scripts, k + 1)
  }

  lemma {:induction false} ConvertAppend(region: string, a: seq<FunctionConfiguration>, b: seq<FunctionConfiguration>)
    ensures Convert(region, a + b) == Convert(region, a) + Convert(region, b)
  {
    var l, r := Convert(region, a + b), Convert(region, a) + Convert(region, b);
    assert |l| == |r|;
    forall i | 0 <= i < |l| ensures l[i] == r[i] {
      if i < |a| { assert (a + b)[i] == a[i]; } else { assert (a + b)[i] == b[i - |a|]; }
    }
  }

  lemma {:induction false} AllFunctionsLength(rs: seq<PageResponse>, lo: nat, hi: nat)
    requires lo <= hi <= |rs|
    ensures |AllFunctions(rs, lo, hi)| == PageSizes(rs, lo, hi)
    decreases hi - lo
  {
    if lo < hi { AllFunctionsLength(rs, lo + 1, hi); }
  }

  lemma {:induction false} LastSomeCons(m: Option<string>, x: Option<string>, ms: seq<Option<string>>)
    ensures LastSome(m, [x] + ms) == LastSome(if x.Some? then x else m, ms)
  {
    if ms != [] {
      assert ([x] + ms)[..|[x] + ms| - 1] == [x] + ms[..|ms| - 1];
      LastSomeCons(m, x, ms[..|ms| - 1]);
    }
  }

  lemma {:induction false} LastSomeAppend(m: Option<string>, a: seq<Option<string>>, b: seq<Option<string>>)
    ensures LastSome(m, a + b) == LastSome(LastSome(m, a), b)
  {
    if b == [] {
      assert a + b == a;
    } else {
      assert (a + b)[..|a + b| - 1] == a + b[..|b| - 1];
      LastSomeAppend(m, a, b[..|b| - 1]);
    }
  }

  /** A client's page loop from request `j` on ends in an error exactly when its
      stopping response is one, and then with that response's error. */
  lemma {:induction false} PageLoopFromError(region: string, rs: seq<PageResponse>, j: nat, m: Option<string>)
    requires HasStop(rs) && j <= StopIndex(rs)
    ensures PageLoopFrom(region, rs, j, m).error ==
            (if RegionFails(rs) then Some(rs[StopIndex(rs)].err) else None)
    decreases StopIndex(rs) - j
  {
    PageLoopFromStep(region, rs, j, m);
    if j < StopIndex(rs) {
      PageLoopFromError(region, rs, j + 1, rs[j].out.nextMarker);
    }
  }

  /** When a client's listing does not fail, its page loop from request `j` on yields
      the descriptors of every page it reads, in order, tagged with the region. */
  lemma {:induction false} PageLoopFromRecords(region: string, rs: seq<PageResponse>, j: nat, m: Option<string>)
    requires HasStop(rs) && j <= StopIndex(rs) && !RegionFails(rs)
    ensures PageLoopFrom(region, rs, j, m).records == Convert(region, AllFunctions(rs, j, StopIndex(rs) + 1))
    decreases StopIndex(rs) - j
  {
    var e := StopIndex(rs) + 1;
    if j + 1 < e {
      BeforeStop(rs, j);
      var fs := rs[j].out.functions;
      var next := rs[j].out.nextMarker;
      assert PageLoopFrom(region, rs, j, m).records == Convert(region, fs) + PageLoopFrom(region, rs, j + 1, next).records;
      assert AllFunctions(rs, j, e) == fs + AllFunctions(rs, j + 1, e);
      PageLoopFromRecords(region, rs, j + 1, next);
      ConvertAppend(region, fs, AllFunctions(rs, j + 1, e));
    } else {
      var fs := rs[j].out.functions;
      assert PageLoopFrom(region, rs, j, m).records == Convert(region, fs);
      assert AllFunctions(rs, j, e) == fs + [] == fs;
    }
  }

  /** A client's page loop from request `j` on makes one request per response read:
      the first carries the shared marker `m` and each later one the NextMarker of
      the page before it. */
  lemma {:induction false} PageLoopFromSent(region: string, rs: seq<PageResponse>, j: nat, m: Option<string>)
    requires HasStop(rs) && j <= StopIndex(rs)
    ensures PageLoopFrom(region, rs, j, m).sent == [m] + ConsumedMarkers(rs)[j..StopIndex(rs)]
    decreases StopIndex(rs) - j
  {
    PageLoopFromStep(region, rs, j, m);
    if j < StopIndex(rs) {
      var next := rs[j].out.nextMarker;
      PageLoopFromSent(region, rs, j + 1, next);
      assert ConsumedMarkers(rs)[j..StopIndex(rs)] == [next] + ConsumedMarkers(rs)[j + 1..StopIndex(rs)];
    }
  }

  /** The marker a client's page loop leaves in the shared request value is the last
      NextMarker it read, or the marker `m` it started with when it read none. */
  lemma {:induction false} PageLoopFromMarker(region: string, rs: seq<PageResponse>, j: nat, m: Option<string>)
    requires HasStop(rs) && j <= StopIndex(rs)
    ensures PageLoopFrom(region, rs, j, m).marker == LastSome(m, ConsumedMarkers(rs)[j..])
    decreases StopIndex(rs) - j
  {
    PageLoopFromStep(region, rs, j, m);
    var ms := ConsumedMarkers(rs)[j..];
    if j < StopIndex(rs) {
      var next := rs[j].out.nextMarker;
      PageLoopFromMarker(region, rs, j + 1, next);
      assert ms == [next] + ConsumedMarkers(rs)[j + 1..];
      LastSomeCons(m, next, ConsumedMarkers(rs)[j + 1..]);
    } else {
      assert ms == [NextMarkerOf(rs[j])];
      LastSomeCons(m, NextMarkerOf(rs[j]), []);
    }
  }

  /** Collection from client `k` on, with shared marker `m`, fails exactly when some
      client's listing fails, with the first such client's error and after
      requesting through no later client. */
  lemma {:induction false} CollectFromFailure(clients: seq<LambdaClient>, scripts: seq<seq<PageResponse>>,
                                              k: nat, m: Option<string>)
    requires |clients| == |scripts| && AllStop(scripts) && k <= |clients|
    ensures var inv := CollectFrom(clients, scripts, k, m);
            var f := FirstFailure(scripts, k);
            && (inv.result.Failure? <==> f < |clients|)
            && (f < |clients| ==> inv.result.error == scripts[f][StopIndex(scripts[f])].err
                                  && |inv.sent| == f - k + 1)
    decreases |clients| - k
  {
    if k < |clients| {
      CollectFromStep(clients, scripts, k, m);
      PageLoopFromError(clients[k].region, scripts[k], 0, m);
      if !RegionFails(scripts[k]) {
        CollectFromFailure(clients, scripts, k + 1, PageLoop(clients[k].region, scripts[k], m).marker);
      }
    }
  }

  /** The clients' blocks from `k` on hold as many records as their pages hold
      descriptors. */
  lemma {:induction false} BlocksLength(clients: seq<LambdaClient>, scripts: seq<seq<PageResponse>>, k: nat)
    requires |clients| == |scripts| && AllStop(scripts) && k <= |clients|
    ensures |Blocks(clients, scripts, k)| == TotalSize(scripts, k)
    decreases |clients| - k
  {
    if k < |clients| {
      BlocksLength(clients, scripts, k + 1);
      AllFunctionsLength(scripts[k], 0, StopIndex(scripts[k]) + 1);
    }
  }

  /** When no client from `k` on fails, collection from `k` on yields the clients'
      blocks in client order, after requesting through every client. */
  lemma {:induction false} CollectFromSuccess(clients: seq<LambdaClient>, scripts: seq<seq<PageResponse>>,
                                              k: nat, m: Option<string>)
    requires |clients| == |scripts| && AllStop(scripts) && k <= |clients|
    requires FirstFailure(scripts, k) == |clients|
    ensures CollectFrom(clients, scripts, k, m).result == Success(Blocks(clients, scripts, k))
    ensures |CollectFrom(clients, scripts, k, m).sent| == |clients| - k
    decreases |clients| - k
  {
    if k < |clients| {
      var run := PageLoop(clients[k].region, scripts[k], m);
      CollectFromStep(clients, scripts, k, m);
      PageLoopFromError(clients[k].region, scripts[k], 0, m);
      PageLoopFromRecords(clients[k].region, scripts[k], 0, m);
      CollectFromSuccess(clients, scripts, k + 1, run.marker);
    }
  }

  /** Collection from client `k` on, with shared marker `m`: the first request through
      the `i`-th of these clients carries the last NextMarker read through the clients
      before it (counting from `k`), or `m` when none was present. */
  lemma {:induction false} CollectFromFirstMarker(clients: seq<LambdaClient>, scripts: seq<seq<PageResponse>>,
                                                  k: nat, m: Option<string>, i: nat)
    requires |clients| == |scripts| && AllStop(scripts) && k <= |clients|
    requires i < |CollectFrom(clients, scripts, k, m).sent|
    ensures k + i < |clients|
    ensures |CollectFrom(clients, scripts, k, m).sent[i]| > 0
    ensures CollectFrom(clients, scripts, k, m).sent[i][0] == LastSome(m, MarkersRead(scripts, k, k + i))
    decreases i
  {
    var run := PageLoop(clients[k].region, scripts[k], m);
    CollectFromStep(clients, scripts, k, m);
    PageLoopFromSent(clients[k].region, scripts[k], 0, m);
    PageLoopFromMarker(clients[k].region, scripts[k], 0, m);
    assert ConsumedMarkers(scripts[k])[0..] == ConsumedMarkers(scripts[k]);
    if i > 0 {
      CollectFromFirstMarker(clients, scripts, k + 1, run.marker, i - 1);
      LastSomeAppend(m, ConsumedMarkers(scripts[k]), MarkersRead(scripts, k + 1, k + i));
    }
  }

  /** getAllLambdaFunctionsDetails fails exactly when some client's listing fails; then
      the error is the first failing client's, no list is returned and no later
      client is asked. */
  lemma CollectFailsIff(clients: seq<LambdaClient>, scripts: seq<seq<PageResponse>>)
    requires |clients| == |scripts| && AllStop(scripts)
    ensures Collect(clients, scripts).result.Failure? <==>
            exists k :: 0 <= k < |scripts| && RegionFails(scripts[k])
    ensures Collect(clients, scripts).result.Failure? ==>
            var f := FirstFailure(scripts, 0);
            && Collect(clients, scripts).result.error == scripts[f][StopIndex(scripts[f])].err
            && |Collect(clients, scripts).sent| == f + 1
  {
    CollectFromFailure(clients, scripts, 0, None);
    var f := FirstFailure(scripts, 0);
    if f < |scripts| { assert RegionFails(scripts[f]); }
  }

  /** On success, the inventory is every client's block, clients in order and pages in
      response order within a client, and its length is the sum of the page sizes. */
  lemma CollectIsConcatenation(clients: seq<LambdaClient>, scripts: seq<seq<PageResponse>>)
    requires |clients| == |scripts| && AllStop(scripts)
    ensures Collect(clients, scripts).result.Success? ==>
            && Collect(clients, scripts).result.value == Blocks(clients, scripts, 0)
            && |Collect(clients, scripts).result.value| == TotalSize(scripts, 0)
            && |Collect(clients, scripts).sent| == |clients|
  {
    CollectFromFailure(clients, scripts, 0, None);
    if FirstFailure(scripts, 0) == |clients| {
      CollectFromSuccess(clients, scripts, 0, None);
      BlocksLength(clients, scripts, 0);
    }
  }

  /** The request value is shared by all clients: the first request through client
      `k` carries the last NextMarker read through clients `0` to `k - 1`, or no
      marker when none of their pages had one. It is not reset per region. */
  lemma SharedMarker(clients: seq<LambdaClient>, scripts: seq<seq<PageResponse>>, k: nat)
    requires |clients| == |scripts| && AllStop(scripts)
    requires k < |clients| && k < |Collect(clients, scripts).sent|
    ensures |Collect(clients, scripts).sent[k]| > 0
    ensures Collect(clients, scripts).sent[k][0] == LastSome(None, MarkersRead(scripts, 0, k))
  {
    CollectFromFirstMarker(clients, scripts, 0, None, k);
  }

  /** A concrete run: the first client pages once with marker "m1"; the second
      client's first request then carries "m1" instead of no marker. */
  lemma StaleMarkerExample()
    ensures var more := Page(ListFunctionsOutput([], Some("m1")));
            var last := Page(ListFunctionsOutput([], None));
            var clients := [LambdaClient("us-east-1"), LambdaClient("eu-west-1")];
            var scripts := [[more, last], [last]];
            && AllStop(scripts)
            && Collect(clients, scripts).sent == [[None, Some("m1")], [Some("m1")]]
  {
    var more := Page(ListFunctionsOutput([], Some("m1")));
    var last := Page(ListFunctionsOutput([], None));
    var clients := [LambdaClient("us-east-1"), LambdaClient("eu-west-1")];
    var rs0, rs1 := [more, last], [last];
    var scripts := [rs0, rs1];
    assert Stops(rs0[1]) && Stops(rs1[0]) && !Stops(rs0[0]);
    assert rs0[1..] == rs1;
    assert AllStop(scripts) by {
      assert HasStop(rs0) && HasStop(rs1);
    }
    assert StopIndex(rs1) == 0 && StopIndex(rs0) == 1;
    PageLoopFromStep("us-east-1", rs0, 0, None);
    PageLoopFromStep("us-east-1", rs0, 1, Some("m1"));
    var first := PageLoop("us-east-1", rs0, None);
    assert first.sent == [None] + [Some("m1")] && first.marker == Some("m1") && first.error.None?;
    PageLoopFromStep("eu-west-1", rs1, 0, Some("m1"));
    var other := PageLoop("eu-west-1", rs1, Some("m1"));
    assert other.sent == [Some("m1")] && other.error.None?;
    CollectFromStep(clients, scripts, 0, None);
    CollectFromStep(clients, scripts, 1, Some("m1"));
    assert CollectFrom(clients, scripts, 2, other.marker).sent == [];
    assert Collect(clients, scripts).sent == [first.sent] + ([other.sent] + []);
    assert first.sent == [None, Some("m1")];
    assert [first.sent] + ([other.sent] + []) == [[None, Some("m1")], [Some("m1")]];
  }

  /** The loop over one page's descriptors: append one record per descriptor. */
  method AppendPage(region: string, functions: seq<FunctionConfiguration>, list0: seq<LambdaFunction>)
    returns (list: seq<LambdaFunction>)
    ensures list == list0 + Convert(region, functions)
  {
    list := list0;
    var i := 0;
    while i < |functions|
      invariant 0 <= i <= |functions|
      invariant list == list0 + Convert(region, functions[..i])
    {
      var f := FromConfiguration(functions[i], region);
      list := list + [f];
      assert Convert(region, functions[..i + 1]) == Convert(region, functions[..i]) + [f];
      i := i + 1;
    }
    assert functions[..i] == functions;
  }

  /** A page loop's run with records and requests already made put in front. */
  ghost function Resumed(recs: seq<LambdaFunction>, sent: seq<Option<string>>, run: RegionRun): RegionRun {
    RegionRun(recs + run.records, sent + run.sent, run.marker, run.error)
  }

  lemma AppendAssoc<T>(a: seq<T>, b: seq<T>, c: seq<T>)
    ensures (a + b) + c == a + (b + c)
  {
  }

  lemma ResumedTwice(a: seq<LambdaFunction>, b: seq<Option<string>>, c: seq<LambdaFunction>,
                     d: seq<Option<string>>, run: RegionRun)
    ensures Resumed(a, b, Resumed(c, d, run)) == Resumed(a + c, b + d, run)
  {
    AppendAssoc(a, c, run.records);
    AppendAssoc(b, d, run.sent);
  }

  /** One step of the page loop: the `j`-th response either ends the loop or hands
      its NextMarker on to the next request. */
  lemma PageLoopFromStep(region: string, rs: seq<PageResponse>, j: nat, m: Option<string>)
    requires HasStop(rs) && j <= StopIndex(rs)
    ensures rs[j].PageError? ==>
            j == StopIndex(rs) && PageLoopFrom(region, rs, j, m) == RegionRun([], [m], m, Some(rs[j].err))
    ensures rs[j].Page? && rs[j].out.nextMarker.None? ==>
            j == StopIndex(rs) &&
            PageLoopFrom(region, rs, j, m) == RegionRun(Convert(region, rs[j].out.functions), [m], m, None)
    ensures rs[j].Page? && rs[j].out.nextMarker.Some? ==>
            j < StopIndex(rs) &&
            PageLoopFrom(region, rs, j, m) ==
            Resumed(Convert(region, rs[j].out.functions), [m],
                    PageLoopFrom(region, rs, j + 1, rs[j].out.nextMarker))
  {
    if j < StopIndex(rs) { BeforeStop(rs, j); }
    if rs[j].Page? && rs[j].out.nextMarker.Some? { assert !Stops(rs[j]); }
  }

  /** The inner `for` loop of getAllLambdaFunctionsDetails for one client: request
      pages with the shared `input` until a page has no NextMarker or a request fails,
      appending a record per descriptor to `list`. */
  method ListRegion(client: LambdaClient, rs: seq<PageResponse>, list0: seq<LambdaFunction>,
                    input0: ListFunctionsInput)
    returns (list: seq<LambdaFunction>, input: ListFunctionsInput,
             regionSent: seq<Option<string>>, error: Option<string>)
    requires HasStop(rs)
    ensures var run := PageLoop(client.region, rs, input0.marker);
            && list == list0 + run.records && input.marker == run.marker
            && regionSent == run.sent && error == run.error
  {
    ghost var full := PageLoop(client.region, rs, input0.marker);
    list, input := list0, input0;
    regionSent := [];
    ghost var regionRecords: seq<LambdaFunction> := [];
    var j := 0;
    assert full == Resumed([], [], PageLoopFrom(client.region, rs, 0, input.marker));
    while true
      invariant 0 <= j <= StopIndex(rs)
      invariant list == list0 + regionRecords
      invariant full == Resumed(regionRecords, regionSent, PageLoopFrom(client.region, rs, j, input.marker))
      decreases StopIndex(rs) - j
    {
      PageLoopFromStep(client.region, rs, j, input.marker);
      ghost var recs0, sent0, m0 := regionRecords, regionSent, input.marker;
      regionSent := regionSent + [input.marker];
      var response := rs[j];
      if response.PageError? {
        assert regionRecords + [] == regionRecords;
        return list, input, regionSent, Some(response.err);
      }
      var out := response.out;
      list := AppendPage(client.region, out.functions, list);
      AppendAssoc(list0, regionRecords, Convert(client.region, out.functions));
      regionRecords := regionRecords + Convert(client.region, out.functions);
      if out.nextMarker.Some? {
        ResumedTwice(recs0, sent0, Convert(client.region, out.functions), [m0],
                     PageLoopFrom(client.region, rs, j + 1, out.nextMarker));
        input := input.(marker := out.nextMarker);
        j := j + 1;
        continue;
      } else {
        break;
      }
    }
    error := None;
  }

  /** A collection with the records and request markers of earlier clients put in front. */
  ghost function Continued(recs: seq<LambdaFunction>, sent: seq<seq<Option<string>>>, inv: Inventory): Inventory {
    Inventory(PrependRecords(recs, inv.result), sent + inv.sent)
  }

  lemma ContinuedTwice(a: seq<LambdaFunction>, b: seq<seq<Option<string>>>, c: seq<LambdaFunction>,
                       d: seq<seq<Option<string>>>, inv: Inventory)
    ensures Continued(a, b, Continued(c, d, inv)) == Continued(a + c, b + d, inv)
  {
    PrependTwice(a, c, inv.result);
    AppendAssoc(b, d, inv.sent);
  }

  /** One step of collection: client `k` either fails, ending collection with its
      error, or its records and requests come before those of the later clients. */
  lemma CollectFromStep(clients: seq<LambdaClient>, scripts: seq<seq<PageResponse>>, k: nat, m: Option<string>)
    requires |clients| == |scripts| && AllStop(scripts) && k < |clients|
    ensures var run := PageLoop(clients[k].region, scripts[k], m);
            && (run.error.Some? ==> CollectFrom(clients, scripts, k, m) == Inventory(Failure(run.error.value), [run.sent]))
            && (run.error.None? ==> CollectFrom(clients, scripts, k, m) ==
                                    Continued(run.records, [run.sent], CollectFrom(clients, scripts, k + 1, run.marker)))
  {
  }

  /** getAllLambdaFunctionsDetails. `scripts[k][j]` answers the j-th ListFunctions
      request made through `clients[k]`; `sent` records the Marker of every request. */
  method GetAllLambdaFunctionsDetails(clients: seq<LambdaClient>, scripts: seq<seq<PageResponse>>)
    returns (result: Result<seq<LambdaFunction>, string>, sent: seq<seq<Option<string>>>)
    requires |clients| == |scripts| && AllStop(scripts)
    ensures Inventory(result, sent) == Collect(clients, scripts)
  {
    var list: seq<LambdaFunction> := [];
    var input := ListFunctionsInput(None);
    sent := [];
    var k := 0;
    PrependNothing(Collect(clients, scripts).result);
    assert Collect(clients, scripts) == Continued([], [], CollectFrom(clients, scripts, 0, input.marker));
    while k < |clients|
      invariant 0 <= k <= |clients|
      invariant Collect(clients, scripts) == Continued(list, sent, CollectFrom(clients, scripts, k, input.marker))
    {
      CollectFromStep(clients, scripts, k, input.marker);
      ghost var list0, sent0 := list, sent;
      var regionSent, error;
      list, input, regionSent, error := ListRegion(clients[k], scripts[k], list, input);
      sent := sent + [regionSent];
      if error.Some? {
        return Failure(error.value), sent;
      }
      ContinuedTwice(list0, sent0, list[|list0|..], [regionSent], CollectFrom(clients, scripts, k + 1, input.marker));
      k := k + 1;
    }
    assert list + [] == list && sent + [] == sent;
    result := Success(list);
  }
}
