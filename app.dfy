/**
 * The program's entry logic (main.go): choosing the regions and creating one
 * Lambda client per region, naming the output file, and laying out the CSV
 * export; and `main`, which runs collection, enrichment and export in turn.
 *
 * Loading the AWS profile, region discovery, the clock and the CSV writer are
 * inputs or outputs: the loaded configuration or its error, the discovered
 * regions or their error, the current Unix time, and the rows handed to the
 * writer.
 */
module App {
  import opened Wrappers
  import opened Lambda
  import opened Collector
  import opened Enricher

  /** The part of the loaded AWS configuration the program reads. */
  datatype Config = Config(region: string)

  /** The application's dependencies once initialized. */
  datatype Application = Application(cfg: Config, lambdaClients: seq<LambdaClient>)

  /** The command-line settings the core reads. */
  datatype Settings = Settings(getAllRegions: bool, outputFileName: string)

  // ---------------------------------------------------------------------------
  // Decimal text of an integer (the `%d` verb)
  // ---------------------------------------------------------------------------

  predicate IsDigit(c: char) {
    '0' <= c <= '9'
  }

  function DigitChar(d: nat): (c: char)
    requires d < 10
    ensures IsDigit(c) && c as int - '0' as int == d
  {
    (d + '0' as int) as char
  }

  /** The decimal digits of `n`, most significant first, without leading zeros. */
  function NatToString(n: nat): (s: string)
    ensures |s| > 0 && forall i :: 0 <= i < |s| ==> IsDigit(s[i])
    ensures s[0] == '0' ==> n == 0 && |s| == 1
    decreases n
  {
    if n < 10 then [DigitChar(n)] else NatToString(n / 10) + [DigitChar(n % 10)]
  }

  /** `fmt.Sprintf("%d", n)`: a minus sign for negatives, then the digits. */
  function FormatInt(n: int): (s: string)
    ensures |s| > 0
    ensures s[0] == '-' <==> n < 0
  {
    if n < 0 then "-" + NatToString(-n) else NatToString(n)
  }

  /** The value of a string of decimal digits. */
  function ParseNat(s: string): nat
    requires forall i :: 0 <= i < |s| ==> IsDigit(s[i])
    decreases |s|
  {
    if s == [] then 0
    else
      assert IsDigit(s[|s| - 1]);
      ParseNat(s[..|s| - 1]) * 10 + (s[|s| - 1] as int - '0' as int)
  }

  /** The value of an optionally signed decimal string. */
  function ParseInt(s: string): int
    requires |s| > 0
    requires forall i :: (if s[0] == '-' then 1 else 0) <= i < |s| ==> IsDigit(s[i])
  {
    if s[0] == '-' then -(ParseNat(s[1..]) as int) else ParseNat(s)
  }

  lemma {:induction false} NatToStringRoundTrip(n: nat)
    ensures ParseNat(NatToString(n)) == n
    decreases n
  {
    if n >= 10 {
      NatToStringRoundTrip(n / 10);
      var s := NatToString(n);
      assert s[..|s| - 1] == NatToString(n / 10);
    }
  }

  /** Reading back the decimal text gives the number. */
  lemma FormatIntRoundTrip(n: int)
    ensures var s := FormatInt(n);
            && (forall i :: (if s[0] == '-' then 1 else 0) <= i < |s| ==> IsDigit(s[i]))
            && ParseInt(s) == n
  {
    if n < 0 {
      NatToStringRoundTrip(-n);
      assert FormatInt(n)[1..] == NatToString(-n);
    } else {
      NatToStringRoundTrip(n);
    }
  }

  // ---------------------------------------------------------------------------
  // getFileName
  // ---------------------------------------------------------------------------

  /** getFileName; `nowUnix` is the clock's current Unix time in seconds. */
  function GetFileName(inputFileName: string, nowUnix: int): (name: string)
    ensures |name| > 0
    ensures inputFileName != "" ==> name == inputFileName
  {
    if inputFileName == "" then FormatInt(nowUnix) + ".csv" else inputFileName
  }

  /** Without a name given, the file is `<unix seconds>.csv` and its stem reads back as
      the time; a name once chosen is kept by a second call. */
  lemma GetFileNameDefault(inputFileName: string, nowUnix: int, later: int)
    ensures inputFileName == "" ==>
            var name := GetFileName(inputFileName, nowUnix);
            && |name| > 4 && name[|name| - 4..] == ".csv"
            && name[..|name| - 4] == FormatInt(nowUnix)
            && ParseInt(name[..|name| - 4]) == nowUnix
    ensures GetFileName(GetFileName(inputFileName, nowUnix), later) == GetFileName(inputFileName, nowUnix)
  {
    if inputFileName == "" {
      var name := GetFileName(inputFileName, nowUnix);
      assert name[..|name| - 4] == FormatInt(nowUnix);
      FormatIntRoundTrip(nowUnix);
    }
  }

  // ---------------------------------------------------------------------------
  // initializeApplication
  // ---------------------------------------------------------------------------

  /** The regions initializeApplication chooses: in all-regions mode the discovered
      regions (a discovery error is fatal), otherwise the configured region alone. */
  function ChosenRegions(getAllRegions: bool, discovered: Result<seq<string>, string>, cfg: Config)
    : Result<seq<string>, string>
  {
    if getAllRegions then discovered else Success([cfg.region])
  }

  /** The regions of a list of clients, in order. */
  function RegionsOf(clients: seq<LambdaClient>): (rs: seq<string>)
    ensures |rs| == |clients|
    ensures forall k :: 0 <= k < |clients| ==> rs[k] == clients[k].region
  {
    seq(|clients|, k requires 0 <= k < |clients| => clients[k].region)
  }

  /** initializeApplication; `discovered` is what region discovery returns, read only
      in all-regions mode. One client is created per chosen region, in order. */
  method InitializeApplication(cfg: Config, getAllRegions: bool, discovered: Result<seq<string>, string>)
    returns (app: Result<Application, string>)
    ensures getAllRegions && discovered.Failure? ==> app == Failure(discovered.error)
    ensures getAllRegions && discovered.Success? ==>
              app.Success? && RegionsOf(app.value.lambdaClients) == discovered.value
    ensures !getAllRegions ==> app.Success? && RegionsOf(app.value.lambdaClients) == [cfg.region]
    ensures app.Success? ==> app.value.cfg == cfg
  {
    var regions: seq<string> := [];
    if getAllRegions {
      if discovered.Failure? {
        return Failure(discovered.error);
      }
      regions := discovered.value;
    } else {
      regions := regions + [cfg.region];
    }
    var lambdaClients: seq<LambdaClient> := [];
    var k := 0;
    while k < |regions|
      invariant 0 <= k <= |regions|
      invariant RegionsOf(lambdaClients) == regions[..k]
    {
      var lambdaClient := LambdaClient(regions[k]);
      lambdaClients := lambdaClients + [lambdaClient];
      assert regions[..k + 1] == regions[..k] + [regions[k]];
      k := k + 1;
    }
    assert regions[..k] == regions;
    app := Success(Application(cfg, lambdaClients));
  }

  // ---------------------------------------------------------------------------
  // The CSV export in main
  // ---------------------------------------------------------------------------

  /** The CSV row of a record: Name, Region, Arn, Description, LastModified, IamRole,
      Runtime, LastInvoked. */
  function CsvRow(l: LambdaFunction): (row: seq<string>)
    ensures |row| == 8
  {
    [l.Name, l.Region, l.Arn, l.Description, l.LastModified, l.IamRole, l.Runtime, l.LastInvoked]
  }

  /** Reads a row back into a record. */
  function RowRecord(row: seq<string>): LambdaFunction
    requires |row| == 8
  {
    LambdaFunction(Name := row[0], Region := row[1], Arn := row[2], Description := row[3],
                   LastModified := row[4], IamRole := row[5], Runtime := row[6], LastInvoked := row[7])
  }

  /** A row holds every field of its record, nothing else. */
  lemma CsvRowRoundTrip(l: LambdaFunction, row: seq<string>)
    requires |row| == 8
    ensures RowRecord(CsvRow(l)) == l
    ensures CsvRow(RowRecord(row)) == row
  {
  }

  /** The header has seven titles and each row eight cells: from the second column on,
      each column is titled for the field to its left, and the last has no title. */
  lemma HeaderRowMisaligned(l: LambdaFunction)
    ensures |TitleFields()| == 7 && |CsvRow(l)| == 8
    ensures TitleFields()[0] == "Function Name" && CsvRow(l)[0] == l.Name
    ensures TitleFields()[1] == "Function ARN" && CsvRow(l)[1] == l.Region
    ensures TitleFields()[6] == "Last Invoked" && CsvRow(l)[6] == l.Runtime
  {
    TitleFieldsAreTheSevenTags();
  }

  /** The writes of main's export: the titles taken from the first record, then one
      row per record in list order. The list must not be empty: main reads its
      first element for the titles. */
  method WriteCsv(list: seq<LambdaFunction>) returns (written: seq<seq<string>>)
    requires |list| > 0
    ensures |written| == |list| + 1
    ensures written[0] == TitleFields()
    ensures forall i :: 0 <= i < |list| ==> written[i + 1] == CsvRow(list[i])
  {
    var titles := GetTitleFields(list[0]);
    written := [titles];
    var i := 0;
    while i < |list|
      invariant 0 <= i <= |list|
      invariant |written| == i + 1
      invariant written[0] == TitleFields()
      invariant forall k :: 0 <= k < i ==> written[k + 1] == CsvRow(list[k])
    {
      var lambdaDetails := list[i];
      var record := [lambdaDetails.Name, lambdaDetails.Region, lambdaDetails.Arn,
                     lambdaDetails.Description, lambdaDetails.LastModified,
                     lambdaDetails.IamRole, lambdaDetails.Runtime, lambdaDetails.LastInvoked];
      written := written + [record];
      i := i + 1;
    }
  }

  // ---------------------------------------------------------------------------
  // main
  // ---------------------------------------------------------------------------

  /** How a run of main ends. */
  datatype RunOutcome =
    | ConfigFailed(error: string)                       // loading the profile failed
    | RegionsFailed(error: string)                      // region discovery failed
    | ListingFailed(error: string)                      // a ListFunctions request failed
    | EmptyInventory(fileName: string)                  // the file was created, then index 0 was out of range
    | Written(fileName: string, rows: seq<seq<string>>) // the rows handed to the CSV writer

  /** The clients main ends up with, when initialization succeeds. */
  function ClientsFor(regions: seq<string>): (clients: seq<LambdaClient>)
    ensures RegionsOf(clients) == regions
  {
    seq(|regions|, k requires 0 <= k < |regions| => LambdaClient(regions[k]))
  }

  /** main. `scripts[k]` answers the ListFunctions requests of the k-th client;
      `lookup` answers DescribeLogStreams; `schedule(n)` is the order in which the
      workers take the jobs of a list of `n` records; `format` formats Unix seconds;
      `nowUnix` is the clock when the file is named. */
  method Run(stg: Settings, loaded: Result<Config, string>, discovered: Result<seq<string>, string>,
             scripts: seq<seq<PageResponse>>, lookup: (string, string) -> LookupOutcome,
             schedule: nat -> seq<int>, format: int -> string, nowUnix: int)
    returns (outcome: RunOutcome)
    requires AllStop(scripts)
    requires forall n: nat :: IsOrder(schedule(n), n)
    requires loaded.Success? && ChosenRegions(stg.getAllRegions, discovered, loaded.value).Success? ==>
             |scripts| == |ChosenRegions(stg.getAllRegions, discovered, loaded.value).value|
    ensures loaded.Failure? ==> outcome == ConfigFailed(loaded.error)
    ensures loaded.Success? ==>
            var regions := ChosenRegions(stg.getAllRegions, discovered, loaded.value);
            && (regions.Failure? ==> outcome == RegionsFailed(regions.error))
            && (regions.Success? ==>
                var inventory := Collect(ClientsFor(regions.value), scripts).result;
                && (inventory.Failure? ==> outcome == ListingFailed(inventory.error))
                && (inventory.Success? && |inventory.value| == 0 ==>
                    outcome == EmptyInventory(GetFileName(stg.outputFileName, nowUnix)))
                && (inventory.Success? && |inventory.value| > 0 ==>
                    && outcome.Written?
                    && outcome.fileName == GetFileName(stg.outputFileName, nowUnix)
                    && |outcome.rows| == |inventory.value| + 1
                    && outcome.rows[0] == TitleFields()
                    && forall i :: 0 <= i < |inventory.value| ==>
                         outcome.rows[i + 1] == CsvRow(Enriched(inventory.value, lookup, format)[i])))
  {
    if loaded.Failure? {
      return ConfigFailed(loaded.error);
    }
    var cfg := loaded.value;
    var initialized := InitializeApplication(cfg, stg.getAllRegions, discovered);
    if initialized.Failure? {
      return RegionsFailed(initialized.error);
    }
    var app := initialized.value;
    assert app.lambdaClients == ClientsFor(ChosenRegions(stg.getAllRegions, discovered, cfg).value);
    var details, sent := GetAllLambdaFunctionsDetails(app.lambdaClients, scripts);
    if details.Failure? {
      return ListingFailed(details.error);
    }
    var records := details.value;
    var lambdaFunctionsList := new LambdaFunction[|records|](i requires 0 <= i < |records| => records[i]);
    assert lambdaFunctionsList[..] == records;
    GetAllLambdaFunctionsLastInvokeTime(lambdaFunctionsList, schedule(lambdaFunctionsList.Length), lookup, format);
    var fileName := GetFileName(stg.outputFileName, nowUnix);
    if lambdaFunctionsList.Length == 0 {
      return EmptyInventory(fileName);
    }
    var rows := WriteCsv(lambdaFunctionsList[..]);
    outcome := Written(fileName, rows);
  }
}
