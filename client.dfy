/** The NissanConnect class itself: the client object whose methods update
    its session identifiers, result key and retry flag in place, and the
    three things it talks to (the HTTP endpoint, the session file and the
    clock), here objects the caller supplies.

    Each request-level method is proved to do exactly what the matching
    function of Protocol computes, on the state World() reads off the
    objects; the properties of those functions therefore hold of the class. */
module Client {
  import opened PhpValues
  import opened Optional
  import opened Protocol
  import opened Status

  /** The HTTP endpoint as a script of decoded answers: each post takes the
      next one. With none left the post fails, as a curl error does. */
  class Transport {
    var inbox: seq<Json>
    var log: seq<Request>

    constructor (answers: seq<Json>)
      ensures inbox == answers && log == []
    {
      inbox := answers;
      log := [];
    }

    method Post(request: Request) returns (body: Option<Json>)
      modifies this
      ensures log == old(log) + [request]
      ensures old(inbox) == [] ==> body == None && inbox == []
      ensures old(inbox) != [] ==> body == Some(old(inbox)[0]) && inbox == old(inbox)[1..]
    {
      log := log + [request];
      if inbox == [] {
        body := None;
      } else {
        body := Some(inbox[0]);
        inbox := inbox[1..];
      }
    }
  }

  /** The session file, kept decoded; None when it does not exist. */
  class SessionStore {
    var file: Option<Json>

    constructor (file: Option<Json>)
      ensures this.file == file
    {
      this.file := file;
    }

    method Load() returns (content: Option<Json>)
      ensures content == file
    {
      content := file;
    }

    method Save(record: Json)
      modifies this
      ensures file == Some(record)
    {
      file := Some(record);
    }
  }

  /** time() and sleep(). Each time() first lets the next of `lags` pass,
      the time the requests since the last reading took; a sleep lets
      exactly the requested seconds pass. */
  class Clock {
    var now: int
    var lags: seq<nat>

    /** The clock as a value. */
    function Current(): Timer
      reads this
    {
      Timer(now, lags)
    }

    constructor (start: int, lags: seq<nat>)
      ensures Current() == Timer(start, lags)
    {
      now := start;
      this.lags := lags;
    }

    method Time() returns (t: int)
      modifies this
      ensures Current() == Read(old(Current())) && t == now
    {
      if lags != [] {
        now := now + lags[0];
        lags := lags[1..];
      }
      t := now;
    }

    method Sleep(seconds: nat)
      modifies this
      ensures Current() == Nap(old(Current()), seconds)
    {
      now := now + seconds;
    }
  }

  class NissanConnect {
    const username: string
    const password: string
    const tz: string
    const country: string
    const encryptPassword: (string, Json) -> string
    const transport: Transport
    const store: SessionStore
    const clock: Clock

    var maxWaitTime: int
    var vin: Json
    var dcmID: Json
    var customSessionID: Json
    var basePRM: Json
    var resultKey: Json
    var shouldRetry: bool

    /** The fixed part of the configuration. */
    function Cfg(): Config {
      Config(username, password, tz, country, encryptPassword)
    }

    /** The protocol state these objects hold. */
    function World(): State
      reads this, transport, store
    {
      State(Session(vin, dcmID, customSessionID, basePRM), resultKey, shouldRetry, transport.inbox, transport.log, store.file)
    }

    /** The country is upper-cased; the session id starts empty and baseprm
        at its built-in default; no result key yet, one retry allowed. The
        time zone, country and identifiers default as in the class. */
    constructor (username: string, password: string, encryptPassword: (string, Json) -> string,
                 transport: Transport, store: SessionStore, clock: Clock,
                 tz: string := DefaultTz, country: string := CountryUs, vin: Json := JNull, dcmID: Json := JNull)
      ensures this.username == username && this.password == password && this.tz == tz
      ensures this.country == ToUpper(country) && this.encryptPassword == encryptPassword
      ensures this.transport == transport && this.store == store && this.clock == clock
      ensures maxWaitTime == DefaultMaxWaitTime
      ensures World() == State(Session(vin, dcmID, JStr(""), JStr(DefaultBasePrm)), JNull, true,
                               transport.inbox, transport.log, store.file)
    {
      this.username := username;
      this.password := password;
      this.tz := tz;
      this.country := ToUpper(country);
      this.encryptPassword := encryptPassword;
      this.transport := transport;
      this.store := store;
      this.clock := clock;
      maxWaitTime := DefaultMaxWaitTime;
      this.vin := vin;
      this.dcmID := dcmID;
      customSessionID := JStr("");
      basePRM := JStr(DefaultBasePrm);
      resultKey := JNull;
      shouldRetry := true;
    }

    /** sendRequest(). */
    method SendRequest(path: string, params: map<string, Json>) returns (r: Result<Json>)
      modifies this, transport, store
      decreases if shouldRetry then 1 else 0, 0
      ensures maxWaitTime == old(maxWaitTime)
      ensures var run := Protocol.Send(Cfg(), old(World()), path, params);
              r == run.result && World() == run.post
    {
      var sent := Request(BaseUrl + path, Inject(params, Cfg(), Session(vin, dcmID, customSessionID, basePRM)));
      var body := transport.Post(sent);
      if body.None? {
        return Err(TransportFailed);
      }
      var json := body.value;
      if !Truthy(json) {
        return Err(NotJson);
      }
      if IsSet(Prop(json, "resultKey")) {
        resultKey := Prop(json, "resultKey");
      }
      var status := Prop(json, "status");
      if status != JInt(200) {
        if LooselyEqualsInt(status, 404) && shouldRetry {
          shouldRetry := false;
          customSessionID := JNull;
          var prepared := Prepare(true);
          if prepared.Err? {
            return Err(prepared.error);
          }
          r := SendRequest(path, sent.params);
          return;
        }
        return Err(RequestFailed(status));
      }
      return Ok(json);
    }

    /** prepare(). */
    method Prepare(skipLocalFile: bool) returns (r: Result<()>)
      modifies this, transport, store
      decreases if shouldRetry then 1 else 0, 2
      ensures maxWaitTime == old(maxWaitTime)
      ensures var run := Protocol.Prepare(Cfg(), old(World()), skipLocalFile);
              r == run.result && World() == run.post
    {
      ghost var s0 := World();
      if !Empty(vin) && !Empty(dcmID) && !Empty(customSessionID) {
        PrepareOutcome(Cfg(), s0, skipLocalFile);
        return Ok(());
      }
      if !skipLocalFile {
        LoadSessionFile();
      }
      ghost var s1 := World();
      assert s1 == s0.(session := if s0.stored.Some? && !skipLocalFile then Loaded(s0.session, s0.stored.value) else s0.session);
      if !Empty(vin) && !Empty(dcmID) && !Empty(customSessionID) {
        PrepareAdoptsFile(Cfg(), s0, skipLocalFile, s1.session);
        return Ok(());
      }
      PrepareLogsIn(Cfg(), s0, skipLocalFile, s1.session);
      r := Login();
      if r.Ok? {
        store.Save(RecordOf(Session(vin, dcmID, customSessionID, basePRM)));
      }
    }

    /** login(). */
    method Login() returns (r: Result<()>)
      modifies this, transport, store
      decreases if shouldRetry then 1 else 0, 1
      ensures maxWaitTime == old(maxWaitTime)
      ensures var run := Protocol.Login(Cfg(), old(World()));
              r == run.result && World() == run.post
    {
      ghost var s0 := World();
      var initial := SendRequest(InitialAppPath, map[]);
      if initial.Err? {
        return Err(initial.error);
      }
      if Empty(Prop(initial.value, "baseprm")) {
        return Err(LoginFailed);
      }
      basePRM := Prop(initial.value, "baseprm");
      var encrypted := encryptPassword(password, basePRM);
      var params := map["UserId" := JStr(username), "Password" := JStr(encrypted)];
      assert params == Credentials(Cfg(), basePRM);
      var login := SendRequest(UserLoginPath, params);
      if login.Err? {
        return Err(login.error);
      }
      TakeIdentifiers(login.value);
      if Empty(vin) || Empty(dcmID) || Empty(customSessionID) {
        return Err(LoginFailed);
      }
      return Ok(());
    }

    /** waitUntilSuccess(). */
    method WaitUntilSuccess(path: string) returns (r: Result<Json>)
      modifies this, transport, store, clock
      ensures maxWaitTime == old(maxWaitTime)
      ensures var w := Protocol.WaitUntilSuccess(Cfg(), old(World()), path, maxWaitTime, old(clock.Current()));
              r == w.result && World() == w.post && clock.Current() == w.clock
    {
      if Empty(resultKey) {
        return Err(MissingResultKey);
      }
      var params := map["resultKey" := resultKey];
      var start := clock.Time();
      ghost var goal := Wait(Cfg(), World(), path, params, start, maxWaitTime, clock.Current());
      while true
        invariant maxWaitTime == old(maxWaitTime)
        invariant Wait(Cfg(), World(), path, params, start, maxWaitTime, clock.Current()) == goal
        decreases if clock.now - start <= maxWaitTime + 1 then maxWaitTime + 1 - (clock.now - start) else 0
      {
        var json := SendRequest(path, params);
        if json.Err? {
          return json;
        }
        if Truthy(Prop(json.value, "responseFlag")) {
          resultKey := JNull;
          return json;
        }
        var now := clock.Time();
        if now - start > maxWaitTime {
          return Err(Timeout);
        }
        clock.Sleep(1);
      }
    }

    /** getStatus(), without the fields built from floats and dates. */
    method GetStatus(option: int := StatusQueryOptionNone) returns (r: Result<Option<StatusReport>>)
      modifies this, transport, store, clock
      ensures maxWaitTime == old(maxWaitTime)
      ensures var run := Status.GetStatus(Cfg(), old(World()), option, maxWaitTime, old(clock.Current()));
              r == run.result && World() == run.post && clock.Current() == run.clock
    {
      var refreshed := RefreshStatus(option);
      if refreshed.Err? {
        return Err(refreshed.error);
      }
      if option == StatusQueryOptionAsync {
        return Ok(None);
      }
      var report := ReadStatus();
      if report.Err? {
        return Err(report.error);
      }
      return Ok(Some(report.value));
    }

    /** The first half of getStatus(): prepare() and then, unless the cached
        option is given, ask the car for fresh status, waiting for the result
        unless the async option is given. */
    method RefreshStatus(option: int) returns (r: Result<()>)
      modifies this, transport, store, clock
      ensures maxWaitTime == old(maxWaitTime)
      ensures var run := Refresh(Cfg(), old(World()), option, maxWaitTime, old(clock.Current()));
              r == run.result && World() == run.post && clock.Current() == run.clock
    {
      var prepared := Prepare(false);
      if prepared.Err? {
        return Err(prepared.error);
      }
      if option == StatusQueryOptionCached {
        return Ok(());
      }
      var check := SendRequest(BatteryCheckPath, map[]);
      if check.Err? {
        return Err(check.error);
      }
      if option != StatusQueryOptionAsync {
        var waited := WaitUntilSuccess(BatteryCheckResultPath);
        if waited.Err? {
          return Err(waited.error);
        }
      }
      return Ok(());
    }

    /** The second half of getStatus(): the battery records, then the
        climate-control records, each checked, combined into the report. */
    method ReadStatus() returns (r: Result<StatusReport>)
      modifies this, transport, store
      ensures maxWaitTime == old(maxWaitTime)
      ensures var run := Records(Cfg(), old(World()));
              r == run.result && World() == run.post
    {
      var battery := FetchRecords(BatteryRecordsPath, "BatteryStatusRecords");
      if battery.Err? {
        return Err(battery.error);
      }
      var ac := FetchRecords(AcRecordsPath, "RemoteACRecords");
      if ac.Err? {
        return Err(ac.error);
      }
      return Ok(Report(battery.value, ac.value, country));
    }

    /** sendRequest() for one kind of status record followed by
        _checkStatusResult() on the answer. */
    method FetchRecords(path: string, what: string) returns (r: Result<Json>)
      modifies this, transport, store
      ensures maxWaitTime == old(maxWaitTime)
      ensures var run := Fetch(Cfg(), old(World()), path, what);
              r == run.result && World() == run.post
    {
      var response := SendRequest(path, map[]);
      if response.Err? {
        return response;
      }
      var checked := CheckStatusResult(response.value, what);
      if checked.Err? {
        return Err(checked.error);
      }
      return response;
    }

    /** The part of prepare() that reads the identifiers from the session
        file, if there is one. */
    method LoadSessionFile()
      modifies this
      ensures Session(vin, dcmID, customSessionID, basePRM) ==
              if store.file.Some? then Loaded(old(Session(vin, dcmID, customSessionID, basePRM)), store.file.value)
              else old(Session(vin, dcmID, customSessionID, basePRM))
      ensures resultKey == old(resultKey) && shouldRetry == old(shouldRetry) && maxWaitTime == old(maxWaitTime)
    {
      var content := store.Load();
      if content.Some? {
        vin := Prop(content.value, "vin");
        dcmID := Prop(content.value, "dcmid");
        customSessionID := Prop(content.value, "sessionid");
      }
    }

    /** The part of login() that takes each identifier the login response
        sets, keeping the old value of any it does not. */
    method TakeIdentifiers(response: Json)
      modifies this
      ensures Session(vin, dcmID, customSessionID, basePRM) ==
              Extracted(old(Session(vin, dcmID, customSessionID, basePRM)), response)
      ensures resultKey == old(resultKey) && shouldRetry == old(shouldRetry) && maxWaitTime == old(maxWaitTime)
    {
      if IsSet(Lookup(response, DcmIdPath)) {
        dcmID := Lookup(response, DcmIdPath);
      }
      if IsSet(Lookup(response, SessionIdPath)) {
        customSessionID := Lookup(response, SessionIdPath);
      }
      if IsSet(Lookup(response, VinPath)) {
        vin := Lookup(response, VinPath);
      }
    }
  }
}
