/**
 * Last-invocation enrichment (cmd.go): building one job per record and the
 * workers that look each function up and write the outcome into its cell.
 *
 * The CloudWatch Logs backend is an input: a lookup from (log group name, region)
 * to the outcome of DescribeLogStreams. The worker pool is modelled sequentially:
 * the jobs are processed one at a time in an arbitrary order.
 */
module Enricher {
  import opened Wrappers
  import opened Lambda

  // ---------------------------------------------------------------------------
  // Enrichment: getAllLambdaFunctionsLastInvokeTime and its workers
  // ---------------------------------------------------------------------------

  /** What a worker needs to look up one function and where to write the result. */
  datatype Job = Job(functionName: string, region: string, index: int)

  const LambdaLogGroupPrefix: string := "/aws/lambda/"

  /** The value written when a function has no log history. */
  const NoData: string := "-"

  /** How DescribeLogStreams answered, as the worker classifies it: an OperationError
      saying that the log group does not exist, any other OperationError, an error
      that is not an OperationError, or the streams returned, each with its
      LastEventTimestamp in milliseconds when present. The streams are those the
      worker's query asks for: at most one, in ascending order of last event time. */
  datatype LookupOutcome =
    | LogGroupMissing
    | OtherOperationError
    | NonOperationError
    | Streams(lastEventTimestamps: seq<Option<int>>)

  /** The log group the worker queries for a function. */
  function LogGroupName(functionName: string): (g: string)
    ensures |g| == |LambdaLogGroupPrefix| + |functionName|
    ensures g[..|LambdaLogGroupPrefix|] == LambdaLogGroupPrefix
    ensures g[|LambdaLogGroupPrefix|..] == functionName
  {
    LambdaLogGroupPrefix + functionName
  }

  /** Go's int64 division by 1000, which truncates toward zero. */
  function MillisToSeconds(ms: int): (sec: int)
    ensures ms >= 0 ==> 0 <= ms - sec * 1000 < 1000
    ensures ms < 0 ==> -1000 < ms - sec * 1000 <= 0
  {
    if ms >= 0 then ms / 1000 else -((-ms) / 1000)
  }

  /** The new LastInvoked value given the current one and the lookup's outcome;
      `format` stands for formatting Unix seconds as a local time. */
  function NewLastInvoked(current: string, outcome: LookupOutcome, format: int -> string): string {
    match outcome
    case LogGroupMissing => NoData
    case OtherOperationError => current
    case NonOperationError => current
    case Streams(ts) =>
      if |ts| == 0 then NoData
      else if ts[0].Some? then format(MillisToSeconds(ts[0].value))
      else current
  }

  /** The record after a job for it was processed against the lookup backend. */
  function Enrich(rec: LambdaFunction, job: Job, lookup: (string, string) -> LookupOutcome,
                  format: int -> string): LambdaFunction
  {
    rec.(LastInvoked := NewLastInvoked(rec.LastInvoked, lookup(LogGroupName(job.functionName), job.region), format))
  }

  /** The list after one job was processed. */
  function Step(s: seq<LambdaFunction>, job: Job, lookup: (string, string) -> LookupOutcome,
                format: int -> string): seq<LambdaFunction>
    requires 0 <= job.index < |s|
  {
    s[job.index := Enrich(s[job.index], job, lookup, format)]
  }

  predicate InRange(js: seq<Job>, n: nat) {
    forall t :: 0 <= t < |js| ==> 0 <= js[t].index < n
  }

  predicate DistinctIndices(js: seq<Job>) {
    forall a, b :: 0 <= a < b < |js| ==> js[a].index != js[b].index
  }

  /** The list after the jobs were processed one after another, in the order given. */
  function ApplyAll(s: seq<LambdaFunction>, js: seq<Job>, lookup: (string, string) -> LookupOutcome,
                    format: int -> string): (r: seq<LambdaFunction>)
    requires InRange(js, |s|)
    ensures |r| == |s|
    decreases |js|
  {
    if js == [] then s
    else Step(ApplyAll(s, js[..|js| - 1], lookup, format), js[|js| - 1], lookup, format)
  }

  /** The jobs getAllLambdaFunctionsLastInvokeTime builds for a list: one per record,
      in list order, with the record's name and region and its position. */
  predicate JobsFor(s: seq<LambdaFunction>, jobs: seq<Job>) {
    && |jobs| == |s|
    && forall i :: 0 <= i < |s| ==> jobs[i] == Job(s[i].Name, s[i].Region, i)
  }

  /** The intended outcome of enrichment: every record enriched through a lookup of
      its own name in its own region. */
  function Enriched(s: seq<LambdaFunction>, lookup: (string, string) -> LookupOutcome,
                    format: int -> string): (r: seq<LambdaFunction>)
    ensures |r| == |s|
  {
    seq(|s|, i requires 0 <= i < |s| => Enrich(s[i], Job(s[i].Name, s[i].Region, i), lookup, format))
  }

  function JobIndices(js: seq<Job>): (ix: seq<int>)
    ensures |ix| == |js|
  {
    seq(|js|, t requires 0 <= t < |js| => js[t].index)
  }

  function Range(n: nat): (r: seq<int>)
    ensures |r| == n
  {
    seq(n, i requires 0 <= i < n => i)
  }

  /** The outcome policy: the cell is set to the no-data marker exactly when the log
      group is missing or has no streams, to the formatted time of the first stream
      when that stream has a timestamp, and is left as it was otherwise. */
  lemma NewLastInvokedPolicy(current: string, outcome: LookupOutcome, format: int -> string)
    ensures outcome.LogGroupMissing? ==> NewLastInvoked(current, outcome, format) == NoData
    ensures outcome.Streams? && |outcome.lastEventTimestamps| == 0 ==>
            NewLastInvoked(current, outcome, format) == NoData
    ensures outcome.Streams? && |outcome.lastEventTimestamps| > 0 && outcome.lastEventTimestamps[0].Some? ==>
            NewLastInvoked(current, outcome, format) ==
            format(MillisToSeconds(outcome.lastEventTimestamps[0].value))
    ensures outcome.OtherOperationError? || outcome.NonOperationError? ||
            (outcome.Streams? && |outcome.lastEventTimestamps| > 0 && outcome.lastEventTimestamps[0].None?) ==>
            NewLastInvoked(current, outcome, format) == current
  {
  }

  /** Starting from the empty initial value, and when formatting never yields the
      empty string or the marker, the written value tells the cases apart: the
      marker means no history, the empty string a failed lookup or a stream without a
      timestamp, anything else a formatted time. */
  lemma OutcomesDistinguishable(outcome: LookupOutcome, format: int -> string)
    requires forall sec :: format(sec) != "" && format(sec) != NoData
    ensures NewLastInvoked("", outcome, format) == NoData <==>
            outcome.LogGroupMissing? || (outcome.Streams? && |outcome.lastEventTimestamps| == 0)
    ensures NewLastInvoked("", outcome, format) == "" <==>
            outcome.OtherOperationError? || outcome.NonOperationError? ||
            (outcome.Streams? && |outcome.lastEventTimestamps| > 0 && outcome.lastEventTimestamps[0].None?)
  {
  }

  /** Applying the same outcome twice gives what applying it once gives. */
  lemma NewLastInvokedIdempotent(current: string, outcome: LookupOutcome, format: int -> string)
    ensures NewLastInvoked(NewLastInvoked(current, outcome, format), outcome, format) ==
            NewLastInvoked(current, outcome, format)
  {
  }

  /** Go truncates where Dafny's division on negatives is Euclidean. */
  lemma MillisToSecondsTruncates()
    ensures MillisToSeconds(1500) == 1 && MillisToSeconds(-1500) == -1 && -1500 / 1000 == -2
  {
  }

  /** Processing a job changes only the LastInvoked field of the cell it names. */
  lemma StepTouchesOneCell(s: seq<LambdaFunction>, job: Job, lookup: (string, string) -> LookupOutcome,
                           format: int -> string)
    requires 0 <= job.index < |s|
    ensures var r := Step(s, job, lookup, format);
            && |r| == |s|
            && (forall i :: 0 <= i < |s| && i != job.index ==> r[i] == s[i])
            && r[job.index] == s[job.index].(LastInvoked := r[job.index].LastInvoked)
            && r[job.index].LastInvoked ==
               NewLastInvoked(s[job.index].LastInvoked, lookup(LogGroupName(job.functionName), job.region), format)
  {
  }

  /** The jobs as built carry exactly the positions 0 to N-1, each once. */
  lemma JobIndicesArePositions(s: seq<LambdaFunction>, jobs: seq<Job>)
    requires JobsFor(s, jobs)
    ensures JobIndices(jobs) == Range(|s|)
    ensures multiset(JobIndices(jobs)) == multiset(Range(|s|))
    ensures InRange(jobs, |s|) && DistinctIndices(jobs)
  {
    assert JobIndices(jobs) == Range(|s|);
  }

  /** The cells no job names are left as they were. */
  lemma {:induction false} ApplyAllElsewhere(s: seq<LambdaFunction>, js: seq<Job>,
                                             lookup: (string, string) -> LookupOutcome, format: int -> string)
    requires InRange(js, |s|)
    ensures forall i :: 0 <= i < |s| && i !in JobIndices(js) ==> ApplyAll(s, js, lookup, format)[i] == s[i]
    decreases |js|
  {
    if js != [] {
      var init := js[..|js| - 1];
      ApplyAllElsewhere(s, init, lookup, format);
      assert JobIndices(init) == JobIndices(js)[..|js| - 1];
      forall i | 0 <= i < |s| && i !in JobIndices(js)
        ensures ApplyAll(s, js, lookup, format)[i] == s[i]
      {
        assert i != JobIndices(js)[|js| - 1];
      }
    }
  }

  /** With distinct in-range indices, each cell a job names ends up enriched by that
      job, whatever the order of the jobs. */
  lemma {:induction false} ApplyAllAt(s: seq<LambdaFunction>, js: seq<Job>,
                                      lookup: (string, string) -> LookupOutcome, format: int -> string)
    requires InRange(js, |s|) && DistinctIndices(js)
    ensures forall t :: 0 <= t < |js| ==>
              ApplyAll(s, js, lookup, format)[js[t].index] == Enrich(s[js[t].index], js[t], lookup, format)
    decreases |js|
  {
    if js != [] {
      var init := js[..|js| - 1];
      var last := js[|js| - 1];
      ApplyAllAt(s, init, lookup, format);
      ApplyAllElsewhere(s, init, lookup, format);
      assert last.index !in JobIndices(init) by {
        forall t | 0 <= t < |init| ensures JobIndices(init)[t] != last.index {
          assert init[t] == js[t];
        }
      }
      forall t | 0 <= t < |js| - 1
        ensures ApplyAll(s, js, lookup, format)[js[t].index] == Enrich(s[js[t].index], js[t], lookup, format)
      {
        assert init[t] == js[t] && js[t].index != last.index;
      }
    }
  }

  /** An order in which the workers take jobs: a permutation of the positions 0 to
      n-1, one position per job. */
  predicate IsOrder(order: seq<int>, n: nat) {
    multiset(order) == multiset(Range(n))
  }

  predicate OrderInRange(order: seq<int>, n: nat) {
    forall t :: 0 <= t < |order| ==> 0 <= order[t] < n
  }

  /** The jobs in the order the workers take them. */
  function Scheduled(jobs: seq<Job>, order: seq<int>): (schedule: seq<Job>)
    requires OrderInRange(order, |jobs|)
    ensures |schedule| == |order|
    ensures forall t :: 0 <= t < |order| ==> schedule[t] == jobs[order[t]]
  {
    seq(|order|, t requires 0 <= t < |order| => jobs[order[t]])
  }

  /** Taking the built jobs in the order of a permutation of their positions, the
      indices are in range and distinct, and every built job is taken. */
  lemma {:induction false} ScheduleOfJobs(s: seq<LambdaFunction>, jobs: seq<Job>, order: seq<int>)
    requires JobsFor(s, jobs) && IsOrder(order, |s|)
    ensures OrderInRange(order, |s|)
    ensures InRange(Scheduled(jobs, order), |s|) && DistinctIndices(Scheduled(jobs, order))
    ensures forall i :: 0 <= i < |s| ==> jobs[i] in Scheduled(jobs, order)
  {
    var r := Range(|s|);
    forall t | 0 <= t < |order| ensures 0 <= order[t] < |s| {
      assert order[t] in multiset(order);
      assert order[t] in r;
    }
    var schedule := Scheduled(jobs, order);
    forall a, b | 0 <= a < b < |schedule| ensures schedule[a].index != schedule[b].index {
      assert schedule[a].index == order[a] && schedule[b].index == order[b];
      if order[a] == order[b] {
        TwiceInMultiset(order, a, b);
        OnceInRange(|s|, order[a]);
        assert false;
      }
    }
    forall i | 0 <= i < |s| ensures jobs[i] in schedule {
      assert r[i] == i;
      assert i in multiset(order);
      var t :| 0 <= t < |order| && order[t] == i;
      assert schedule[t] == jobs[i];
    }
  }

  lemma TwiceInMultiset<T>(xs: seq<T>, a: nat, b: nat)
    requires a < b < |xs| && xs[a] == xs[b]
    ensures multiset(xs)[xs[a]] >= 2
  {
    assert xs == xs[..a] + [xs[a]] + xs[a + 1..b] + [xs[b]] + xs[b + 1..];
  }

  lemma OnceInRange(n: nat, i: int)
    requires 0 <= i < n
    ensures multiset(Range(n))[i] == 1
  {
    var r := Range(n);
    assert r == r[..i] + [r[i]] + r[i + 1..];
    assert i !in r[..i] && i !in r[i + 1..];
  }

  /** Whatever order the workers take the built jobs in, enrichment yields the
      intended list: each record enriched from a lookup of its own name and region. */
  lemma PoolResult(s: seq<LambdaFunction>, jobs: seq<Job>, order: seq<int>,
                   lookup: (string, string) -> LookupOutcome, format: int -> string)
    requires JobsFor(s, jobs) && IsOrder(order, |s|)
    ensures OrderInRange(order, |s|) && InRange(Scheduled(jobs, order), |s|)
    ensures ApplyAll(s, Scheduled(jobs, order), lookup, format) == Enriched(s, lookup, format)
  {
    ScheduleOfJobs(s, jobs, order);
    var schedule := Scheduled(jobs, order);
    ApplyAllAt(s, schedule, lookup, format);
    ApplyAllElsewhere(s, schedule, lookup, format);
    var r := ApplyAll(s, schedule, lookup, format);
    forall i | 0 <= i < |s| ensures r[i] == Enriched(s, lookup, format)[i] {
      var t :| 0 <= t < |schedule| && schedule[t] == jobs[i];
    }
  }

  /** Two processing orders of the built jobs give the same final list. */
  lemma OrderIndependent(s: seq<LambdaFunction>, jobs: seq<Job>, order1: seq<int>, order2: seq<int>,
                         lookup: (string, string) -> LookupOutcome, format: int -> string)
    requires JobsFor(s, jobs) && IsOrder(order1, |s|) && IsOrder(order2, |s|)
    ensures OrderInRange(order1, |s|) && OrderInRange(order2, |s|)
    ensures InRange(Scheduled(jobs, order1), |s|) && InRange(Scheduled(jobs, order2), |s|)
    ensures ApplyAll(s, Scheduled(jobs, order1), lookup, format) == ApplyAll(s, Scheduled(jobs, order2), lookup, format)
  {
    PoolResult(s, jobs, order1, lookup, format);
    PoolResult(s, jobs, order2, lookup, format);
  }

  /** Enriching an already enriched list against the same backend changes nothing. */
  lemma EnrichedIdempotent(s: seq<LambdaFunction>, lookup: (string, string) -> LookupOutcome,
                           format: int -> string)
    ensures Enriched(Enriched(s, lookup, format), lookup, format) == Enriched(s, lookup, format)
  {
    var e := Enriched(s, lookup, format);
    forall i | 0 <= i < |s| ensures Enriched(e, lookup, format)[i] == e[i] {
      NewLastInvokedIdempotent(s[i].LastInvoked, lookup(LogGroupName(s[i].Name), s[i].Region), format);
    }
  }

  /** The job-building loop of getAllLambdaFunctionsLastInvokeTime: one job per
      record, enqueued in list order. */
  method BuildJobs(list: array<LambdaFunction>) returns (jobs: seq<Job>)
    ensures JobsFor(list[..], jobs)
  {
    jobs := [];
    var i := 0;
    while i < list.Length
      invariant 0 <= i <= list.Length
      invariant |jobs| == i
      invariant forall k :: 0 <= k < i ==> jobs[k] == Job(list[k].Name, list[k].Region, k)
    {
      var currentJob := Job(list[i].Name, list[i].Region, i);
      jobs := jobs + [currentJob];
      i := i + 1;
    }
  }

  /** One iteration of a worker (getLambdaFunctionLastInvokeTime): look up the job's
      log group in the job's region and write the outcome into the job's cell. */
  method ProcessJob(list: array<LambdaFunction>, currentJob: Job,
                    lookup: (string, string) -> LookupOutcome, format: int -> string)
    requires 0 <= currentJob.index < list.Length
    modifies list
    ensures list[..] == Step(old(list[..]), currentJob, lookup, format)
  {
    var logGroupName := LambdaLogGroupPrefix + currentJob.functionName;
    var out := lookup(logGroupName, currentJob.region);
    var index := currentJob.index;
    if out.LogGroupMissing? {
      list[index] := list[index].(LastInvoked := NoData);
    } else if out.OtherOperationError? || out.NonOperationError? {
      // the cell is left as it is
    } else if |out.lastEventTimestamps| == 0 {
      list[index] := list[index].(LastInvoked := NoData);
    } else if out.lastEventTimestamps[0].Some? {
      var lastEventTimestampInSeconds := MillisToSeconds(out.lastEventTimestamps[0].value);
      list[index] := list[index].(LastInvoked := format(lastEventTimestampInSeconds));
    }
  }

  /** getAllLambdaFunctionsLastInvokeTime together with its workers, run to the
      barrier: the jobs are built and then taken one at a time, each by one worker,
      in the scheduler's `order` of their positions, until none is left. */
  method GetAllLambdaFunctionsLastInvokeTime(list: array<LambdaFunction>, order: seq<int>,
                                             lookup: (string, string) -> LookupOutcome,
                                             format: int -> string)
    requires IsOrder(order, list.Length)
    modifies list
    ensures list[..] == Enriched(old(list[..]), lookup, format)
  {
    var jobs := BuildJobs(list);
    ScheduleOfJobs(list[..], jobs, order);
    ghost var schedule := Scheduled(jobs, order);
    var t := 0;
    while t < |order|
      invariant 0 <= t <= |order|
      invariant InRange(schedule[..t], list.Length)
      invariant list[..] == ApplyAll(old(list[..]), schedule[..t], lookup, format)
    {
      assert schedule[..t + 1][..t] == schedule[..t];
      var currentJob := jobs[order[t]];
      assert currentJob == schedule[t];
      ProcessJob(list, currentJob, lookup, format);
      t := t + 1;
    }
    assert schedule[..t] == schedule;
    PoolResult(old(list[..]), jobs, order, lookup, format);
  }
}
