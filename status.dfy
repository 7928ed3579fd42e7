/** getStatus()'s validation of the two records it fetches, and the parts of
    its result built from integers and text: the TimeRequiredToFull entries
    and the cruising-range unit. */
module Status {
  import opened PhpValues
  import opened Optional
  import opened Protocol

  // The values of getStatus()'s $option.
  const StatusQueryOptionNone: int := 0
  const StatusQueryOptionAsync: int := 1
  const StatusQueryOptionCached: int := 2

  /** array_search() against array('START', 'START_BATTERY', 'FINISH'), which
      compares loosely. */
  predicate AllowedOperationResult(v: Json) {
    LooselyEqualsWord(v, "START") || LooselyEqualsWord(v, "START_BATTERY") || LooselyEqualsWord(v, "FINISH")
  }

  /** _checkStatusResult(): the record named `what` must be non-empty, its
      OperationResult non-empty and one of the allowed values; every failure
      is InvalidResponse. */
  function CheckStatusResult(response: Json, what: string): (r: Result<()>)
    ensures r.Ok? <==>
              !Empty(Prop(response, what)) &&
              !Empty(Prop(Prop(response, what), "OperationResult")) &&
              AllowedOperationResult(Prop(Prop(response, what), "OperationResult"))
    ensures r.Err? ==> r.error == InvalidResponse && r.error.Code() == ErrorCodeInvalidResponse
  {
    var record := Prop(response, what);
    if Empty(record) then Err(InvalidResponse)
    else if Empty(Prop(record, "OperationResult")) then Err(InvalidResponse)
    else if !AllowedOperationResult(Prop(record, "OperationResult")) then Err(InvalidResponse)
    else Ok(())
  }

  /** A textual OperationResult passes exactly when it is one of the three
      words; because the search is loose, a JSON `true` passes as well. */
  lemma CheckStatusResultWords(response: Json, what: string)
    requires Prop(response, what).JObj?
    ensures var op := Prop(Prop(response, what), "OperationResult");
            (op.JStr? ==> (CheckStatusResult(response, what).Ok? <==> op.s in {"START", "START_BATTERY", "FINISH"})) &&
            (op == JBool(true) ==> CheckStatusResult(response, what).Ok?) &&
            (op.JInt? || op.JArr? || op.JObj? || op == JNull || op == JBool(false) ==> CheckStatusResult(response, what).Err?)
  {
    var op := Prop(Prop(response, what), "OperationResult");
    if op.JInt? {
      if op.n < 0 {
        assert IntToString(op.n)[0] == '-';
      } else {
        assert IsDigit(IntToString(op.n)[0]);
      }
    }
  }

  // ---------------------------------------------------------------------
  // TimeRequiredToFull

  /** One TimeRequiredToFull entry: the (int) casts and the Formatted text. */
  datatype ChargeTime = ChargeTime(hours: int, minutes: int, formatted: string)

  const ChargeTimeFields: seq<string> := ["TimeRequiredToFull", "TimeRequiredToFull200", "TimeRequiredToFull200_6kW"]

  /** Formatted: "<hours>h " when the hours are non-zero, then "<minutes>m "
      when the minutes are. */
  function FormatDuration(hours: int, minutes: int): (f: string)
    ensures f == "" <==> hours == 0 && minutes == 0
    ensures hours != 0 ==> |f| >= |IntToString(hours)| + 2 && f[..|IntToString(hours)| + 2] == IntToString(hours) + "h "
    ensures hours == 0 ==> f == if minutes != 0 then IntToString(minutes) + "m " else ""
  {
    (if hours != 0 then IntToString(hours) + "h " else "") + (if minutes != 0 then IntToString(minutes) + "m " else "")
  }

  /** The entry named `field` of BatteryStatusRecords, or None when both its
      hour and minute values are empty. */
  function ChargeTimeOf(records: Json, field: string): (r: Option<ChargeTime>)
    ensures var h, m := Lookup(records, [Key(field), Key("HourRequiredToFull")]), Lookup(records, [Key(field), Key("MinutesRequiredToFull")]);
            (r.None? <==> Empty(h) && Empty(m)) &&
            (r.Some? ==> r.value.hours == IntCast(h) && r.value.minutes == IntCast(m)) &&
            (r.Some? ==> (r.value.formatted == "" <==> r.value.hours == 0 && r.value.minutes == 0))
  {
    var h := Lookup(records, [Key(field), Key("HourRequiredToFull")]);
    var m := Lookup(records, [Key(field), Key("MinutesRequiredToFull")]);
    if Empty(h) && Empty(m) then None
    else Some(ChargeTime(IntCast(h), IntCast(m), FormatDuration(IntCast(h), IntCast(m))))
  }

  /** The text is empty exactly when both numbers are zero; otherwise
      PHP's (int) of the text reads back the first non-zero number, and
      the minutes follow the hours' "h ". */
  lemma FormatDurationReadsBack(hours: int, minutes: int)
    requires IntMin <= hours <= IntMax && IntMin <= minutes <= IntMax
    ensures FormatDuration(hours, minutes) == "" <==> hours == 0 && minutes == 0
    ensures hours != 0 ==> StringToInt(FormatDuration(hours, minutes)) == hours
    ensures hours == 0 && minutes != 0 ==> StringToInt(FormatDuration(hours, minutes)) == minutes
    ensures hours != 0 && minutes != 0 ==>
              StringToInt(FormatDuration(hours, minutes)[|IntToString(hours)| + 2..]) == minutes
  {
    if hours != 0 {
      HoursReadBack(hours, minutes);
    } else if minutes != 0 {
      assert FormatDuration(hours, minutes) == IntToString(minutes) + "m ";
      StringToIntRoundTrip(minutes, "m ");
    }
  }

  lemma HoursReadBack(hours: int, minutes: int)
    requires IntMin <= hours <= IntMax && IntMin <= minutes <= IntMax && hours != 0
    ensures FormatDuration(hours, minutes) != ""
    ensures StringToInt(FormatDuration(hours, minutes)) == hours
    ensures minutes != 0 ==> StringToInt(FormatDuration(hours, minutes)[|IntToString(hours)| + 2..]) == minutes
  {
    var m := if minutes != 0 then IntToString(minutes) + "m " else "";
    var h := IntToString(hours);
    var text := FormatDuration(hours, minutes);
    assert text == h + ("h " + m);
    StringToIntRoundTrip(hours, "h " + m);
    if minutes != 0 {
      assert text[|h| + 2..] == IntToString(minutes) + "m ";
      StringToIntRoundTrip(minutes, "m ");
    }
  }

  /** An entry whose hour value is a non-empty string that does not start
      with a number (the service sends "n/a") is kept with zero hours rather
      than dropped; with minutes that also cast to zero the text is empty. */
  lemma ChargeTimeOfNonNumeric(records: Json, field: string)
    requires var h := Lookup(records, [Key(field), Key("HourRequiredToFull")]);
             h.JStr? && !Empty(h) && !HasNumber(ScanNumber(h.s))
    ensures var m := Lookup(records, [Key(field), Key("MinutesRequiredToFull")]);
            ChargeTimeOf(records, field) == Some(ChargeTime(0, IntCast(m), FormatDuration(0, IntCast(m)))) &&
            (IntCast(m) == 0 ==> ChargeTimeOf(records, field) == Some(ChargeTime(0, 0, "")))
  {
    NoNumberCastsToZero(Lookup(records, [Key(field), Key("HourRequiredToFull")]).s);
  }

  /** "n/a" is such a value. */
  lemma NotAvailableHasNoNumber()
    ensures !Empty(JStr("n/a")) && !HasNumber(ScanNumber("n/a"))
  {
    NoLeadingNumber("n/a");
  }

  // ---------------------------------------------------------------------
  // Cruising-range unit

  /** getStatus() as written: miles only when the stored country is 'US'. */
  function CruisingRangeUnitAsWritten(country: string): (unit: string)
    ensures unit == "miles" <==> country == "US"
    ensures unit == "miles" || unit == "km"
  {
    if country == "US" then "miles" else "km"
  }

  /** The constructor upper-cases the country, and the class's US constant
      is 'NNA', so a client made with the documented constant reports
      kilometres. */
  lemma UsClientReportsKilometres()
    ensures CruisingRangeUnitAsWritten(ToUpper(CountryUs)) == "km"
  {
    assert ToUpper(CountryUs)[0] == 'N';
  }

  /** Corrected: the US region code selects miles; 'US' still does too. */
  function CruisingRangeUnit(country: string): (unit: string)
    ensures unit == "miles" <==> country == CountryUs || country == "US"
    ensures unit == "miles" || unit == "km"
  {
    if country == CountryUs || country == "US" then "miles" else "km"
  }

  lemma CruisingRangeUnitByRegion()
    ensures CruisingRangeUnit(ToUpper(CountryUs)) == "miles"
    ensures CruisingRangeUnit(ToUpper(CountryCanada)) == "km"
  {
    assert ToUpper(CountryUs) == CountryUs;
    assert ToUpper(CountryCanada) == CountryCanada;
  }

  // ---------------------------------------------------------------------

  /** What this model keeps of getStatus()'s result: the two validated
      responses, the three TimeRequiredToFull entries and the range unit. */
  datatype StatusReport = StatusReport(
    battery: Json,
    ac: Json,
    chargeTimes: seq<Option<ChargeTime>>,
    cruisingRangeUnit: string)

  function Report(battery: Json, ac: Json, country: string): (report: StatusReport)
    ensures report.battery == battery && report.ac == ac
    ensures |report.chargeTimes| == |ChargeTimeFields| == 3
    ensures forall i :: 0 <= i < 3 ==>
              report.chargeTimes[i] == ChargeTimeOf(Prop(battery, "BatteryStatusRecords"), ChargeTimeFields[i])
    ensures report.cruisingRangeUnit == CruisingRangeUnit(country)
  {
    var records := Prop(battery, "BatteryStatusRecords");
    StatusReport(battery, ac,
                 [ChargeTimeOf(records, ChargeTimeFields[0]),
                  ChargeTimeOf(records, ChargeTimeFields[1]),
                  ChargeTimeOf(records, ChargeTimeFields[2])],
                 CruisingRangeUnit(country))
  }

  // ---------------------------------------------------------------------
  // getStatus()

  const BatteryCheckPath: string := "BatteryStatusCheckRequest.php"
  const BatteryCheckResultPath: string := "BatteryStatusCheckResultRequest.php"
  const BatteryRecordsPath: string := "BatteryStatusRecordsRequest.php"
  const AcRecordsPath: string := "RemoteACRecordsRequest.php"

  /** sendRequest() for one kind of record, then _checkStatusResult() on
      the answer. */
  function Fetch(cfg: Config, s: State, path: string, what: string): Run<Json> {
    var response := Send(cfg, s, path, map[]);
    if response.result.Err? then
      response
    else
      var checked := CheckStatusResult(response.result.value, what);
      if checked.Err? then Run(Err(checked.error), response.post) else response
  }

  /** The records half of getStatus(): the battery records, then the
      climate-control records, each checked, combined into the report. */
  function Records(cfg: Config, s: State): Run<StatusReport> {
    var battery := Fetch(cfg, s, BatteryRecordsPath, "BatteryStatusRecords");
    if battery.result.Err? then
      Run(Err(battery.result.error), battery.post)
    else
      var ac := Fetch(cfg, battery.post, AcRecordsPath, "RemoteACRecords");
      if ac.result.Err? then Run(Err(ac.result.error), ac.post)
      else Run(Ok(Report(battery.result.value, ac.result.value, cfg.country)), ac.post)
  }

  /** The refresh half of getStatus(): prepare(); then, unless the cached
      option is given, ask the car for fresh values and, unless the async
      option is given, wait for them. */
  function Refresh(cfg: Config, s: State, option: int, maxWait: int, c: Timer): Timed<()> {
    var prepared := Prepare(cfg, s, false);
    if prepared.result.Err? then
      Timed(Err(prepared.result.error), prepared.post, c)
    else if option == StatusQueryOptionCached then
      Timed(Ok(()), prepared.post, c)
    else
      var check := Send(cfg, prepared.post, BatteryCheckPath, map[]);
      if check.result.Err? then
        Timed(Err(check.result.error), check.post, c)
      else if option == StatusQueryOptionAsync then
        Timed(Ok(()), check.post, c)
      else
        var waited := WaitUntilSuccess(cfg, check.post, BatteryCheckResultPath, maxWait, c);
        if waited.result.Err? then Timed(Err(waited.result.error), waited.post, waited.clock)
        else Timed(Ok(()), waited.post, waited.clock)
  }

  /** getStatus(): the refresh, then nothing more for the async option and
      the report for the others. */
  function GetStatus(cfg: Config, s: State, option: int, maxWait: int, c: Timer): Timed<Option<StatusReport>> {
    var refreshed := Refresh(cfg, s, option, maxWait, c);
    if refreshed.result.Err? then
      Timed(Err(refreshed.result.error), refreshed.post, refreshed.clock)
    else if option == StatusQueryOptionAsync then
      Timed(Ok(None), refreshed.post, refreshed.clock)
    else
      var records := Records(cfg, refreshed.post);
      if records.result.Err? then Timed(Err(records.result.error), records.post, refreshed.clock)
      else Timed(Ok(Some(records.result.value)), records.post, refreshed.clock)
  }

  /** A fetch fails with InvalidResponse exactly when the request succeeded
      and its answer fails _checkStatusResult(); it succeeds with the answer exactly
      when both succeed; a failed request is passed on. */
  lemma FetchChecks(cfg: Config, s: State, path: string, what: string)
    ensures var f, r := Fetch(cfg, s, path, what), Send(cfg, s, path, map[]);
            f.post == r.post &&
            (f.result == Err(InvalidResponse) <==> r.result.Ok? && CheckStatusResult(r.result.value, what).Err?) &&
            (f.result.Ok? <==> r.result.Ok? && CheckStatusResult(r.result.value, what).Ok?) &&
            (f.result.Ok? ==> f.result == r.result) &&
            (r.result.Err? ==> f.result == r.result)
  {
    SendOutcome(cfg, s, path, map[]);
  }

  /** The records half posts the battery request first, with the session as
      it stands; on success it has then posted the climate-control request,
      and the report is built from the two checked answers, each the last
      consumed by its own request. */
  lemma RecordsOutcome(cfg: Config, s: State)
    ensures var r := Records(cfg, s);
            Evolves(cfg, s, r.post) && KeyTracks(s, r.post) &&
            |r.post.log| > |s.log| && r.post.log[|s.log|] == Request(BaseUrl + BatteryRecordsPath, Inject(map[], cfg, s.session))
    ensures var r := Records(cfg, s); r.result.Err? ==> RequestError(r.result.error) || r.result.error == InvalidResponse
    ensures var r, b := Records(cfg, s), Send(cfg, s, BatteryRecordsPath, map[]);
            r.result.Ok? ==>
              var report := r.result.value;
              b.result == Ok(report.battery) && Send(cfg, b.post, AcRecordsPath, map[]) == Run(Ok(report.ac), r.post) &&
              Answered(s, b.post, report.battery) && Answered(b.post, r.post, report.ac) &&
              |s.log| < |b.post.log| < |r.post.log| &&
              r.post.log[|b.post.log|] == Request(BaseUrl + AcRecordsPath, Inject(map[], cfg, b.post.session)) &&
              CheckStatusResult(report.battery, "BatteryStatusRecords").Ok? &&
              CheckStatusResult(report.ac, "RemoteACRecords").Ok? &&
              report == Report(report.battery, report.ac, cfg.country)
  {
    var b := Send(cfg, s, BatteryRecordsPath, map[]);
    FetchChecks(cfg, s, BatteryRecordsPath, "BatteryStatusRecords");
    SendOutcome(cfg, s, BatteryRecordsPath, map[]);
    SendKeeps(cfg, s, BatteryRecordsPath, map[]);
    if b.result.Ok? && CheckStatusResult(b.result.value, "BatteryStatusRecords").Ok? {
      var a := Send(cfg, b.post, AcRecordsPath, map[]);
      FetchChecks(cfg, b.post, AcRecordsPath, "RemoteACRecords");
      SendOutcome(cfg, b.post, AcRecordsPath, map[]);
      SendKeeps(cfg, b.post, AcRecordsPath, map[]);
      ChainTrans(cfg, s, b.post, a.post);
      assert a.post.log[|s.log|] == a.post.log[..|b.post.log|][|s.log|];
    }
  }

  /** Without the retry budget the records half posts exactly the two
      requests, with the session unchanged, and its report is built from the
      next two answers. */
  lemma RecordsWithoutRetry(cfg: Config, s: State)
    requires !s.shouldRetry
    ensures var r := Records(cfg, s);
            r.result.Ok? ==>
              |s.inbox| >= 2 && r.result.value.battery == s.inbox[0] && r.result.value.ac == s.inbox[1] &&
              r.post.inbox == s.inbox[2..] && r.post.session == s.session &&
              r.post.log == s.log + [Request(BaseUrl + BatteryRecordsPath, Inject(map[], cfg, s.session)),
                                     Request(BaseUrl + AcRecordsPath, Inject(map[], cfg, s.session))]
  {
    var b := Send(cfg, s, BatteryRecordsPath, map[]);
    FetchChecks(cfg, s, BatteryRecordsPath, "BatteryStatusRecords");
    SendOutcome(cfg, s, BatteryRecordsPath, map[]);
    if b.result.Ok? && CheckStatusResult(b.result.value, "BatteryStatusRecords").Ok? {
      SendWithoutRetry(cfg, s, BatteryRecordsPath, map[]);
      var a := Send(cfg, b.post, AcRecordsPath, map[]);
      FetchChecks(cfg, b.post, AcRecordsPath, "RemoteACRecords");
      SendOutcome(cfg, b.post, AcRecordsPath, map[]);
      if a.result.Ok? {
        SendWithoutRetry(cfg, b.post, AcRecordsPath, map[]);
        assert s.inbox[1..][1..] == s.inbox[2..];
      }
    }
  }

  /** The refresh half: it fails only with a request error, a missing key
      or a timeout, and succeeds only after prepare() completed the session.
      With the cached option nothing is posted after prepare(); with the
      others BatteryStatusCheckRequest.php is posted next; without waiting
      the clock is not read; a wait that succeeds polled
      BatteryStatusCheckResultRequest.php with the result key held after the
      check (the answer's key when it carries one, otherwise the key held
      before), and cleared it. */
  lemma RefreshOutcome(cfg: Config, s: State, option: int, maxWait: int, c: Timer)
    ensures var p, r := Prepare(cfg, s, false), Refresh(cfg, s, option, maxWait, c);
            Evolves(cfg, s, r.post) &&
            (r.result.Err? ==> RequestError(r.result.error) || r.result.error == MissingResultKey || r.result.error == Timeout) &&
            (r.result.Ok? ==> p.result.Ok? && Complete(p.post.session)) &&
            (p.result.Err? ==> r == Timed(Err(p.result.error), p.post, c)) &&
            (p.result.Ok? && option == StatusQueryOptionCached ==> r == Timed(Ok(()), p.post, c)) &&
            (p.result.Ok? && option != StatusQueryOptionCached ==>
               |r.post.log| > |p.post.log| &&
               r.post.log[|p.post.log|] == Request(BaseUrl + BatteryCheckPath, Inject(map[], cfg, p.post.session))) &&
            (option == StatusQueryOptionCached || option == StatusQueryOptionAsync ==> r.clock == c)
    ensures var p := Prepare(cfg, s, false);
            var check := Send(cfg, p.post, BatteryCheckPath, map[]);
            var r := Refresh(cfg, s, option, maxWait, c);
            r.result.Ok? && option != StatusQueryOptionCached && option != StatusQueryOptionAsync ==>
              check.result.Ok? && r.post.resultKey == JNull && |r.post.log| > |check.post.log| &&
              r.post.log[|check.post.log|] ==
                Request(BaseUrl + BatteryCheckResultPath, Inject(map["resultKey" := check.post.resultKey], cfg, check.post.session))
  {
    var p := Prepare(cfg, s, false);
    PrepareKeeps(cfg, s, false);
    PrepareOutcome(cfg, s, false);
    if p.result.Ok? && option != StatusQueryOptionCached {
      var check := Send(cfg, p.post, BatteryCheckPath, map[]);
      SendKeeps(cfg, p.post, BatteryCheckPath, map[]);
      SendOutcome(cfg, p.post, BatteryCheckPath, map[]);
      EvolvesTrans(cfg, s, p.post, check.post);
      if check.result.Ok? && option != StatusQueryOptionAsync {
        var waited := WaitUntilSuccess(cfg, check.post, BatteryCheckResultPath, maxWait, c);
        WaitUntilSuccessOutcome(cfg, check.post, BatteryCheckResultPath, maxWait, c);
        if Empty(check.post.resultKey) {
          assert waited.post == check.post;
        }
        EvolvesTrans(cfg, s, check.post, waited.post);
        assert waited.post.log[|p.post.log|] == waited.post.log[..|check.post.log|][|p.post.log|];
      }
    }
  }

  /** getStatus(): the async option, and only it, succeeds with no report;
      the others succeed with the report of the records half run on the
      state the refresh left, and their errors are those of the two halves;
      the clock is only moved by the refresh. */
  lemma GetStatusOutcome(cfg: Config, s: State, option: int, maxWait: int, c: Timer)
    ensures var g := GetStatus(cfg, s, option, maxWait, c);
            Evolves(cfg, s, g.post) &&
            (g.result.Ok? ==> (g.result.value.None? <==> option == StatusQueryOptionAsync)) &&
            (g.result.Ok? ==> Complete(Prepare(cfg, s, false).post.session)) &&
            (g.result.Err? ==>
               RequestError(g.result.error) || g.result.error == MissingResultKey ||
               g.result.error == Timeout || g.result.error == InvalidResponse)
    ensures var f, g := Refresh(cfg, s, option, maxWait, c), GetStatus(cfg, s, option, maxWait, c);
            g.clock == f.clock &&
            (f.result.Err? ==> g.result == Err(f.result.error) && g.post == f.post) &&
            (f.result.Ok? && option != StatusQueryOptionAsync ==>
               var records := Records(cfg, f.post);
               g.post == records.post &&
               (g.result.Ok? <==> records.result.Ok?) &&
               (g.result.Ok? ==> g.result.value == Some(records.result.value)) &&
               (g.result.Err? ==> g.result.error == records.result.error))
  {
    RefreshOutcome(cfg, s, option, maxWait, c);
    var f := Refresh(cfg, s, option, maxWait, c);
    if f.result.Ok? && option != StatusQueryOptionAsync {
      RecordsOutcome(cfg, f.post);
      EvolvesTrans(cfg, s, f.post, Records(cfg, f.post).post);
    }
  }
}

