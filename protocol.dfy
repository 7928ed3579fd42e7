/** The session-and-command protocol of the NissanConnect client, as
    functions over an explicit state: the three session identifiers, the
    pending result key, the one-shot retry flag, the server's remaining
    answers, the requests sent so far and the session file.

    Send, Prepare and Login are sendRequest(), prepare() and login(); they
    call each other exactly as the methods do. They terminate because the
    retry flag goes from true to false at most once: the measure is the
    flag, then the rank Send < Login < Prepare. */
module Protocol {
  import opened PhpValues
  import opened Optional

  // Exception codes the class declares.
  const ErrorCodeMissingResultKey: int := 400
  const ErrorCodeLoginFailed: int := 403
  const ErrorCodeInvalidResponse: int := 405
  const ErrorCodeNotJson: int := 406
  const ErrorCodeTimeout: int := 408

  /** What the client raises. TransportFailed stands for the die() that
      ends the process when curl fails; every other case is an Exception. */
  datatype Error =
    | MissingResultKey
    | LoginFailed
    | InvalidResponse
    | NotJson
    | Timeout
    | RequestFailed(status: Json)
    | TransportFailed
  {
    /** The Exception's code. */
    function Code(): int
      requires !TransportFailed?
    {
      match this
      case MissingResultKey => ErrorCodeMissingResultKey
      case LoginFailed => ErrorCodeLoginFailed
      case InvalidResponse => ErrorCodeInvalidResponse
      case NotJson => ErrorCodeNotJson
      case Timeout => ErrorCodeTimeout
      case RequestFailed(status) => ExceptionCode(status)
    }
  }

  /** The status as Exception's int parameter receives it: a string that
      starts with a number gives that number, its fraction cut off (see
      IntParam). Values PHP would refuse with a TypeError (arrays, objects,
      strings without a leading number, numbers outside the 64-bit range)
      give 0. */
  function ExceptionCode(status: Json): int {
    match status
    case JInt(n) => n
    case JBool(b) => if b then 1 else 0
    case JStr(s) => IntParam(s)
    case _ => 0
  }

  datatype Result<T> = Ok(value: T) | Err(error: Error)

  /** The errors a request, with its re-login and retry, can end in; the
      others belong to waitUntilSuccess() and the status checks. */
  predicate RequestError(e: Error) {
    e.NotJson? || e.RequestFailed? || e.LoginFailed? || e.TransportFailed?
  }

  // Fixed protocol values.
  const BaseUrl: string := "https://gdcportalgw.its-mo.com/gworchest_0307C/gdc/"
  const InitialAppStrings: string := "geORNtsZe5I4lRGjG9GZiA"
  const DefaultBasePrm: string := "uyI5Dj9g8VCOFDnBRUbr3g"
  const Locale: string := "en-US"
  const CountryCanada: string := "NCI"
  const CountryUs: string := "NNA"
  const DefaultTz: string := "America/New_York"
  /** How long waitUntilSuccess() waits, in seconds. */
  const DefaultMaxWaitTime: int := 290
  const InitialAppPath: string := "InitialApp.php"
  const UserLoginPath: string := "UserLoginRequest.php"

  /** The construction parameters that never change. `encryptPassword` is
      the Blowfish-ECB and base64 step, which this model keeps opaque. */
  datatype Config = Config(
    username: string,
    password: string,
    tz: string,
    country: string,
    encryptPassword: (string, Json) -> string)

  /** The identifiers config holds; login and the session file fill them. */
  datatype Session = Session(vin: Json, dcmID: Json, customSessionID: Json, basePRM: Json)

  /** prepare() trusts a session only when all three identifiers are non-empty. */
  predicate Complete(s: Session) {
    !Empty(s.vin) && !Empty(s.dcmID) && !Empty(s.customSessionID)
  }

  /** A POST to `url` with form fields `params`. */
  datatype Request = Request(url: string, params: map<string, Json>)

  /** Everything the protocol reads or changes. `inbox` holds the decoded
      bodies the server will answer with, one per request; `stored` is the
      session file (None when there is none). */
  datatype State = State(
    session: Session,
    resultKey: Json,
    shouldRetry: bool,
    inbox: seq<Json>,
    log: seq<Request>,
    stored: Option<Json>)

  /** An operation's outcome and the state it leaves. */
  datatype Run<T> = Run(result: Result<T>, post: State)

  // ---------------------------------------------------------------------
  // Session fields in every request

  const SessionKeys: set<string> :=
    {"custom_sessionid", "initial_app_strings", "RegionCode", "lg", "DCMID", "VIN", "tz"}

  /** The seven fields, with the values the configuration fixes. */
  predicate HasSessionFields(cfg: Config, p: map<string, Json>) {
    SessionKeys <= p.Keys &&
    p["initial_app_strings"] == JStr(InitialAppStrings) &&
    p["RegionCode"] == JStr(cfg.country) &&
    p["lg"] == JStr(Locale) &&
    p["tz"] == JStr(cfg.tz)
  }

  /** The caller's parameters with the session fields written over them. */
  function Inject(params: map<string, Json>, cfg: Config, s: Session): (p: map<string, Json>)
    ensures p.Keys == params.Keys + SessionKeys
    ensures HasSessionFields(cfg, p)
    ensures p["custom_sessionid"] == s.customSessionID && p["DCMID"] == s.dcmID && p["VIN"] == s.vin
    ensures forall k :: k in params && k !in SessionKeys ==> p[k] == params[k]
  {
    params["custom_sessionid" := s.customSessionID]
          ["initial_app_strings" := JStr(InitialAppStrings)]
          ["RegionCode" := JStr(cfg.country)]
          ["lg" := JStr(Locale)]
          ["DCMID" := s.dcmID]
          ["VIN" := s.vin]
          ["tz" := JStr(cfg.tz)]
  }

  /** The re-sent request passes the already injected parameters; injecting
      again replaces every session field, so it is the caller's parameters
      with the new session. */
  lemma InjectTwice(params: map<string, Json>, cfg: Config, a: Session, b: Session)
    ensures Inject(Inject(params, cfg, a), cfg, b) == Inject(params, cfg, b)
  {
  }

  // ---------------------------------------------------------------------
  // The result-key slot

  /** sendRequest() stores any resultKey a decoded response carries. */
  function CaptureKey(key: Json, response: Json): (k: Json)
    ensures Truthy(response) && IsSet(Prop(response, "resultKey")) ==> k == Prop(response, "resultKey")
    ensures !(Truthy(response) && IsSet(Prop(response, "resultKey"))) ==> k == key
    ensures IsSet(key) ==> IsSet(k)
  {
    if Truthy(response) && IsSet(Prop(response, "resultKey")) then Prop(response, "resultKey") else key
  }

  /** The slot after `responses` were handled in order, starting from `key`. */
  function LatestKey(key: Json, responses: seq<Json>): Json
    decreases |responses|
  {
    if responses == [] then key else LatestKey(CaptureKey(key, responses[0]), responses[1..])
  }

  lemma {:induction false} LatestKeyAppend(key: Json, a: seq<Json>, b: seq<Json>)
    ensures LatestKey(key, a + b) == LatestKey(LatestKey(key, a), b)
    decreases |a|
  {
    if a == [] {
      assert a + b == b;
    } else {
      assert (a + b)[0] == a[0] && (a + b)[1..] == a[1..] + b;
      LatestKeyAppend(CaptureKey(key, a[0]), a[1..], b);
    }
  }

  /** Once the slot holds a key, handling responses never empties it to null. */
  lemma {:induction false} LatestKeyStaysSet(key: Json, responses: seq<Json>)
    requires IsSet(key)
    ensures IsSet(LatestKey(key, responses))
    decreases |responses|
  {
    if responses != [] {
      LatestKeyStaysSet(CaptureKey(key, responses[0]), responses[1..]);
    }
  }

  // ---------------------------------------------------------------------
  // How the state may evolve

  /** The responses consumed between `s` and `t`. */
  function Consumed(s: State, t: State): seq<Json>
    requires |t.inbox| <= |s.inbox|
  {
    s.inbox[..|s.inbox| - |t.inbox|]
  }

  /** What every protocol step preserves: the request log only grows and
      every request added carries the session fields; responses are consumed
      from the front; the retry flag never comes back; the session file is
      either untouched or holds a complete record. */
  predicate Evolves(cfg: Config, s: State, t: State) {
    |s.log| <= |t.log| && t.log[..|s.log|] == s.log &&
    (forall i :: |s.log| <= i < |t.log| ==> HasSessionFields(cfg, t.log[i].params)) &&
    |t.inbox| <= |s.inbox| && t.inbox == s.inbox[|s.inbox| - |t.inbox|..] &&
    (t.shouldRetry ==> s.shouldRetry) &&
    (t.stored == s.stored || (t.stored.Some? && CompleteRecord(t.stored.value)))
  }

  /** The result-key slot holds the key of the last consumed response that
      had one, overwriting earlier ones, whatever the statuses were. */
  predicate KeyTracks(s: State, t: State) {
    |t.inbox| <= |s.inbox| && t.resultKey == LatestKey(s.resultKey, Consumed(s, t))
  }

  /** `v` is the last response consumed between `s` and `t`. */
  predicate Answered(s: State, t: State, v: Json) {
    |t.inbox| < |s.inbox| && s.inbox[|s.inbox| - |t.inbox| - 1] == v
  }

  lemma EvolvesTrans(cfg: Config, s: State, u: State, t: State)
    requires Evolves(cfg, s, u) && Evolves(cfg, u, t)
    ensures Evolves(cfg, s, t)
  {
    assert t.log[..|s.log|] == t.log[..|u.log|][..|s.log|];
    forall i | |s.log| <= i < |t.log|
      ensures HasSessionFields(cfg, t.log[i].params)
    {
      if i < |u.log| {
        assert t.log[i] == u.log[i];
      }
    }
  }

  lemma ChainTrans(cfg: Config, s: State, u: State, t: State)
    requires Evolves(cfg, s, u) && KeyTracks(s, u)
    requires Evolves(cfg, u, t) && KeyTracks(u, t)
    ensures Evolves(cfg, s, t) && KeyTracks(s, t)
  {
    var a, b := Consumed(s, u), Consumed(u, t);
    assert Consumed(s, t) == a + b;
    LatestKeyAppend(s.resultKey, a, b);
    EvolvesTrans(cfg, s, u, t);
  }

  /** Changing only the session identifiers keeps both invariants. */
  lemma WithSession(cfg: Config, s: State, t: State, session: Session)
    requires Evolves(cfg, s, t) && KeyTracks(s, t)
    ensures Evolves(cfg, s, t.(session := session)) && KeyTracks(s, t.(session := session))
  {
  }

  /** Posting one request and consuming its answer keeps both invariants. */
  lemma Posted(cfg: Config, s: State, sent: Request)
    requires HasSessionFields(cfg, sent.params) && s.inbox != []
    ensures var t := s.(log := s.log + [sent], inbox := s.inbox[1..], resultKey := CaptureKey(s.resultKey, s.inbox[0]));
            Evolves(cfg, s, t) && KeyTracks(s, t) && Answered(s, t, s.inbox[0])
  {
    var t := s.(log := s.log + [sent], inbox := s.inbox[1..], resultKey := CaptureKey(s.resultKey, s.inbox[0]));
    assert Consumed(s, t) == [s.inbox[0]];
    assert t.log[..|s.log|] == s.log;
  }

  /** Lowering the retry flag and changing the session keep both invariants. */
  lemma WithoutRetry(cfg: Config, s: State, t: State, session: Session)
    requires Evolves(cfg, s, t) && KeyTracks(s, t)
    ensures Evolves(cfg, s, t.(shouldRetry := false, session := session))
    ensures KeyTracks(s, t.(shouldRetry := false, session := session))
  {
  }

  /** Writing a complete record into the session file keeps both invariants. */
  lemma WithRecord(cfg: Config, s: State, t: State, record: Json)
    requires Evolves(cfg, s, t) && KeyTracks(s, t) && CompleteRecord(record)
    ensures Evolves(cfg, s, t.(stored := Some(record))) && KeyTracks(s, t.(stored := Some(record)))
  {
  }

  lemma AnsweredLater(cfg: Config, s: State, u: State, t: State, r: Result<Json>)
    requires Evolves(cfg, s, u) && Evolves(cfg, u, t)
    requires r.Ok? ==> Answered(u, t, r.value)
    ensures r.Ok? ==> Answered(s, t, r.value)
  {
    if r.Ok? {
      var k := |s.inbox| - |u.inbox|;
      assert u.inbox[|u.inbox| - |t.inbox| - 1] == s.inbox[k + |u.inbox| - |t.inbox| - 1];
    }
  }

  // ---------------------------------------------------------------------
  // The session file

  /** The JSON object prepare() writes after a login. */
  function RecordOf(s: Session): (record: Json)
    ensures record.JObj? && record.fields.Keys == {"vin", "dcmid", "sessionid"}
    ensures Prop(record, "vin") == s.vin && Prop(record, "dcmid") == s.dcmID && Prop(record, "sessionid") == s.customSessionID
  {
    JObj(map["vin" := s.vin, "dcmid" := s.dcmID, "sessionid" := s.customSessionID])
  }

  predicate CompleteRecord(record: Json) {
    !Empty(Prop(record, "vin")) && !Empty(Prop(record, "dcmid")) && !Empty(Prop(record, "sessionid"))
  }

  /** What prepare() reads from the file; a missing or unreadable field is null. */
  function Loaded(s: Session, record: Json): (t: Session)
    ensures t.basePRM == s.basePRM
    ensures Complete(t) <==> CompleteRecord(record)
    ensures !record.JObj? ==> t.vin == JNull && t.dcmID == JNull && t.customSessionID == JNull
  {
    s.(vin := Prop(record, "vin"), dcmID := Prop(record, "dcmid"), customSessionID := Prop(record, "sessionid"))
  }

  /** A written record reads back as the session it was written from, and
      it is complete exactly when that session is. */
  lemma RecordRoundTrip(s: Session, other: Session)
    ensures Loaded(other, RecordOf(s)) == other.(vin := s.vin, dcmID := s.dcmID, customSessionID := s.customSessionID)
    ensures CompleteRecord(RecordOf(s)) <==> Complete(s)
  {
  }

  // ---------------------------------------------------------------------
  // Login response

  const DcmIdPath: seq<Step> := [Key("CustomerInfo"), Key("VehicleInfo"), Key("DCMID")]
  const SessionIdPath: seq<Step> := [Key("VehicleInfoList"), Key("vehicleInfo"), Index(0), Key("custom_sessionid")]
  const VinPath: seq<Step> := [Key("CustomerInfo"), Key("VehicleInfo"), Key("VIN")]

  /** login() takes each identifier the response sets and keeps the old
      value of any it does not. */
  function Extracted(s: Session, response: Json): (t: Session)
    ensures t.basePRM == s.basePRM
    ensures IsSet(t.vin) <==> IsSet(s.vin) || IsSet(Lookup(response, VinPath))
    ensures IsSet(t.dcmID) <==> IsSet(s.dcmID) || IsSet(Lookup(response, DcmIdPath))
    ensures IsSet(t.customSessionID) <==> IsSet(s.customSessionID) || IsSet(Lookup(response, SessionIdPath))
    ensures IsSet(Lookup(response, VinPath)) ==> t.vin == Lookup(response, VinPath)
    ensures IsSet(Lookup(response, DcmIdPath)) ==> t.dcmID == Lookup(response, DcmIdPath)
    ensures IsSet(Lookup(response, SessionIdPath)) ==> t.customSessionID == Lookup(response, SessionIdPath)
  {
    var dcmID := Lookup(response, DcmIdPath);
    var sessionID := Lookup(response, SessionIdPath);
    var vin := Lookup(response, VinPath);
    s.(dcmID := if IsSet(dcmID) then dcmID else s.dcmID,
       customSessionID := if IsSet(sessionID) then sessionID else s.customSessionID,
       vin := if IsSet(vin) then vin else s.vin)
  }

  // ---------------------------------------------------------------------
  // sendRequest, prepare, login

  /** sendRequest(): inject the session, post, decode. A falsy body fails
      with NotJson; the result key is captured before the status is looked
      at; only status 200 succeeds; a status loosely equal to 404 while the
      retry flag is up clears the flag and the session id, logs in again
      without the session file, and re-sends once (Recover). */
  function Send(cfg: Config, s: State, path: string, params: map<string, Json>): (r: Run<Json>)
    decreases if s.shouldRetry then 1 else 0, 0
    ensures r.post.shouldRetry ==> s.shouldRetry
  {
    var sent := Request(BaseUrl + path, Inject(params, cfg, s.session));
    if s.inbox == [] then
      Run(Err(TransportFailed), s.(log := s.log + [sent]))
    else
      var json := s.inbox[0];
      var s1 := s.(log := s.log + [sent], inbox := s.inbox[1..], resultKey := CaptureKey(s.resultKey, json));
      if !Truthy(json) then
        Run(Err(NotJson), s1)
      else
        var status := Prop(json, "status");
        if status == JInt(200) then
          Run(Ok(json), s1)
        else if LooselyEqualsInt(status, 404) && s.shouldRetry then
          Recover(cfg, Expired(s1), path, sent.params)
        else
          Run(Err(RequestFailed(status)), s1)
  }

  /** The state in which sendRequest() starts its recovery: the retry flag
      lowered and the session id cleared. */
  function Expired(s: State): (t: State)
    ensures !t.shouldRetry && !Complete(t.session) && t.session.customSessionID == JNull
    ensures t.log == s.log && t.inbox == s.inbox && t.stored == s.stored && t.resultKey == s.resultKey
  {
    s.(shouldRetry := false, session := s.session.(customSessionID := JNull))
  }

  /** The recovery branch of sendRequest(): prepare(TRUE), then send the
      already injected request again. */
  function Recover(cfg: Config, s: State, path: string, params: map<string, Json>): (r: Run<Json>)
    requires !s.shouldRetry
    decreases if s.shouldRetry then 1 else 0, 3
    ensures !r.post.shouldRetry
  {
    var prepared := Prepare(cfg, s, true);
    if prepared.result.Err? then
      Run(Err(prepared.result.error), prepared.post)
    else
      Send(cfg, prepared.post, path, params)
  }

  /** prepare(): nothing to do when the session is complete; otherwise read
      the session file (unless told to skip it) and, if the session is still
      incomplete, log in and save the session file. */
  function Prepare(cfg: Config, s: State, skipLocalFile: bool): (r: Run<()>)
    decreases if s.shouldRetry then 1 else 0, 2
    ensures r.post.shouldRetry ==> s.shouldRetry
  {
    if Complete(s.session) then
      Run(Ok(()), s)
    else
      var session := if s.stored.Some? && !skipLocalFile then Loaded(s.session, s.stored.value) else s.session;
      if Complete(session) then
        Run(Ok(()), s.(session := session))
      else
        Saved(Login(cfg, s.(session := session)))
  }

  /** login(): fetch baseprm, post the encrypted password, take the
      identifiers from the response; LoginFailed unless baseprm is non-empty
      and all three identifiers are non-empty afterwards. */
  function Login(cfg: Config, s: State): (r: Run<()>)
    decreases if s.shouldRetry then 1 else 0, 1
    ensures r.post.shouldRetry ==> s.shouldRetry
  {
    var initial := Send(cfg, s, InitialAppPath, map[]);
    if initial.result.Err? then
      Run(Err(initial.result.error), initial.post)
    else
      var basePrm := Prop(initial.result.value, "baseprm");
      if Empty(basePrm) then
        Run(Err(LoginFailed), initial.post)
      else
        var s1 := initial.post.(session := initial.post.session.(basePRM := basePrm));
        var login := Send(cfg, s1, UserLoginPath, Credentials(cfg, basePrm));
        if login.result.Err? then
          Run(Err(login.result.error), login.post)
        else
          var s2 := login.post.(session := Extracted(login.post.session, login.result.value));
          if Complete(s2.session) then Run(Ok(()), s2) else Run(Err(LoginFailed), s2)
  }

  /** The parameters of the login request. */
  function Credentials(cfg: Config, basePrm: Json): (p: map<string, Json>)
    ensures p.Keys == {"UserId", "Password"} && p["UserId"] == JStr(cfg.username)
    ensures p["Password"] == JStr(cfg.encryptPassword(cfg.password, basePrm))
  {
    map["UserId" := JStr(cfg.username), "Password" := JStr(cfg.encryptPassword(cfg.password, basePrm))]
  }

  // ---------------------------------------------------------------------
  // What the four operations guarantee, proved by the same measure that
  // makes them terminate: first the two invariants, then the outcomes.

  /** sendRequest() keeps both invariants, through its recovery too. */
  lemma {:induction false} SendKeeps(cfg: Config, s: State, path: string, params: map<string, Json>)
    decreases if s.shouldRetry then 1 else 0, 0
    ensures Evolves(cfg, s, Send(cfg, s, path, params).post)
    ensures KeyTracks(s, Send(cfg, s, path, params).post)
  {
    var sent := Request(BaseUrl + path, Inject(params, cfg, s.session));
    if s.inbox == [] {
      assert s.(log := s.log + [sent]).log[..|s.log|] == s.log;
    } else {
      var json := s.inbox[0];
      var s1 := s.(log := s.log + [sent], inbox := s.inbox[1..], resultKey := CaptureKey(s.resultKey, json));
      Posted(cfg, s, sent);
      if Truthy(json) && Prop(json, "status") != JInt(200) && LooselyEqualsInt(Prop(json, "status"), 404) && s.shouldRetry {
        var s2 := Expired(s1);
        WithoutRetry(cfg, s, s1, s2.session);
        RecoverKeeps(cfg, s2, path, sent.params);
        ChainTrans(cfg, s, s2, Recover(cfg, s2, path, sent.params).post);
      }
    }
  }

  lemma {:induction false} RecoverKeeps(cfg: Config, s: State, path: string, params: map<string, Json>)
    requires !s.shouldRetry
    decreases if s.shouldRetry then 1 else 0, 3
    ensures Evolves(cfg, s, Recover(cfg, s, path, params).post)
    ensures KeyTracks(s, Recover(cfg, s, path, params).post)
  {
    PrepareKeeps(cfg, s, true);
    var prepared := Prepare(cfg, s, true);
    if prepared.result.Ok? {
      SendKeeps(cfg, prepared.post, path, params);
      ChainTrans(cfg, s, prepared.post, Send(cfg, prepared.post, path, params).post);
    }
  }

  lemma {:induction false} PrepareKeeps(cfg: Config, s: State, skipLocalFile: bool)
    decreases if s.shouldRetry then 1 else 0, 2
    ensures Evolves(cfg, s, Prepare(cfg, s, skipLocalFile).post)
    ensures KeyTracks(s, Prepare(cfg, s, skipLocalFile).post)
  {
    assert Evolves(cfg, s, s) && KeyTracks(s, s);
    if !Complete(s.session) {
      var session := if s.stored.Some? && !skipLocalFile then Loaded(s.session, s.stored.value) else s.session;
      var s1 := s.(session := session);
      WithSession(cfg, s, s, session);
      if !Complete(session) {
        LoginKeeps(cfg, s1);
        var login := Login(cfg, s1);
        ChainTrans(cfg, s, s1, login.post);
        if login.result.Ok? {
          LoginOutcome(cfg, s1);
          RecordRoundTrip(login.post.session, login.post.session);
          WithRecord(cfg, s, login.post, RecordOf(login.post.session));
        }
      }
    }
  }

  lemma {:induction false} LoginKeeps(cfg: Config, s: State)
    decreases if s.shouldRetry then 1 else 0, 1
    ensures Evolves(cfg, s, Login(cfg, s).post)
    ensures KeyTracks(s, Login(cfg, s).post)
  {
    SendKeeps(cfg, s, InitialAppPath, map[]);
    var initial := Send(cfg, s, InitialAppPath, map[]);
    var basePrm := if initial.result.Ok? then Prop(initial.result.value, "baseprm") else JNull;
    if initial.result.Err? || Empty(basePrm) {
      assert Login(cfg, s).post == initial.post;
    } else {
      var s1 := initial.post.(session := initial.post.session.(basePRM := basePrm));
      WithSession(cfg, s, initial.post, s1.session);
      SendKeeps(cfg, s1, UserLoginPath, Credentials(cfg, basePrm));
      var login := Send(cfg, s1, UserLoginPath, Credentials(cfg, basePrm));
      ChainTrans(cfg, s, s1, login.post);
      if login.result.Err? {
        assert Login(cfg, s).post == login.post;
      } else {
        var session := Extracted(login.post.session, login.result.value);
        WithSession(cfg, s, login.post, session);
        assert Login(cfg, s).post == login.post.(session := session);
      }
    }
  }

  /** sendRequest() posts its own request first; success means status 200
      and hands back the last answer consumed; it fails only with a request
      error; without the retry budget it posts exactly one request and
      leaves session and file alone. */
  lemma {:induction false} SendOutcome(cfg: Config, s: State, path: string, params: map<string, Json>)
    decreases if s.shouldRetry then 1 else 0, 0
    ensures var r := Send(cfg, s, path, params);
            r.result.Ok? ==> Prop(r.result.value, "status") == JInt(200) && Answered(s, r.post, r.result.value)
    ensures var r := Send(cfg, s, path, params); r.result.Err? ==> RequestError(r.result.error)
    ensures var r := Send(cfg, s, path, params);
            |r.post.log| > |s.log| && r.post.log[|s.log|] == Request(BaseUrl + path, Inject(params, cfg, s.session))
    ensures var r := Send(cfg, s, path, params);
            !s.shouldRetry ==>
              r.post.log == s.log + [Request(BaseUrl + path, Inject(params, cfg, s.session))] &&
              r.post.session == s.session && r.post.stored == s.stored
  {
    var sent := Request(BaseUrl + path, Inject(params, cfg, s.session));
    if s.inbox != [] {
      var json := s.inbox[0];
      var s1 := s.(log := s.log + [sent], inbox := s.inbox[1..], resultKey := CaptureKey(s.resultKey, json));
      Posted(cfg, s, sent);
      if Truthy(json) && Prop(json, "status") != JInt(200) && LooselyEqualsInt(Prop(json, "status"), 404) && s.shouldRetry {
        var s2 := Expired(s1);
        WithoutRetry(cfg, s, s1, s2.session);
        RecoverKeeps(cfg, s2, path, sent.params);
        RecoverOutcome(cfg, s2, path, sent.params);
        var recovered := Recover(cfg, s2, path, sent.params);
        assert Send(cfg, s, path, params) == recovered;
        AnsweredLater(cfg, s, s2, recovered.post, recovered.result);
        assert recovered.post.log[..|s2.log|] == s2.log;
        assert recovered.post.log[|s.log|] == s2.log[|s.log|] == sent;
      }
    }
  }

  lemma {:induction false} RecoverOutcome(cfg: Config, s: State, path: string, params: map<string, Json>)
    requires !s.shouldRetry
    decreases if s.shouldRetry then 1 else 0, 3
    ensures var r := Recover(cfg, s, path, params);
            r.result.Ok? ==> Prop(r.result.value, "status") == JInt(200) && Answered(s, r.post, r.result.value)
    ensures var r := Recover(cfg, s, path, params); r.result.Err? ==> RequestError(r.result.error)
  {
    PrepareOutcome(cfg, s, true);
    var prepared := Prepare(cfg, s, true);
    if prepared.result.Ok? {
      PrepareKeeps(cfg, s, true);
      SendKeeps(cfg, prepared.post, path, params);
      SendOutcome(cfg, prepared.post, path, params);
      var resent := Send(cfg, prepared.post, path, params);
      AnsweredLater(cfg, s, prepared.post, resent.post, resent.result);
    }
  }

  /** prepare() uses a complete session as it is; success always leaves a
      complete session; it fails only with a request error, and without the
      retry budget a failure leaves the file alone. */
  lemma {:induction false} PrepareOutcome(cfg: Config, s: State, skipLocalFile: bool)
    decreases if s.shouldRetry then 1 else 0, 2
    ensures Complete(s.session) ==> Prepare(cfg, s, skipLocalFile) == Run(Ok(()), s)
    ensures var r := Prepare(cfg, s, skipLocalFile); r.result.Ok? ==> Complete(r.post.session)
    ensures var r := Prepare(cfg, s, skipLocalFile); r.result.Err? ==> RequestError(r.result.error)
    ensures var r := Prepare(cfg, s, skipLocalFile); !s.shouldRetry && r.result.Err? ==> r.post.stored == s.stored
  {
    if !Complete(s.session) {
      var session := if s.stored.Some? && !skipLocalFile then Loaded(s.session, s.stored.value) else s.session;
      if !Complete(session) {
        LoginOutcome(cfg, s.(session := session));
      }
    }
  }

  /** login() succeeds only with a complete session; it fails only with a
      request error; without the retry budget the file is left alone. */
  lemma {:induction false} LoginOutcome(cfg: Config, s: State)
    decreases if s.shouldRetry then 1 else 0, 1
    ensures var r := Login(cfg, s); r.result.Ok? ==> Complete(r.post.session)
    ensures var r := Login(cfg, s); r.result.Err? ==> RequestError(r.result.error)
    ensures var r := Login(cfg, s); !s.shouldRetry ==> r.post.stored == s.stored
  {
    SendOutcome(cfg, s, InitialAppPath, map[]);
    var initial := Send(cfg, s, InitialAppPath, map[]);
    if initial.result.Ok? {
      var basePrm := Prop(initial.result.value, "baseprm");
      if !Empty(basePrm) {
        var s1 := initial.post.(session := initial.post.session.(basePRM := basePrm));
        SendOutcome(cfg, s1, UserLoginPath, Credentials(cfg, basePrm));
      }
    }
  }

  // ---------------------------------------------------------------------
  // sendRequest(): how each answer is handled

  /** The answers a single sendRequest() distinguishes before any status
      is looked at: no body at all ends the process, a falsy decoding raises
      406, and the integer status 200 returns the body unchanged. */
  lemma SendAnswers(cfg: Config, s: State, path: string, params: map<string, Json>)
    ensures s.inbox == [] ==> Send(cfg, s, path, params).result == Err(TransportFailed)
    ensures s.inbox != [] && !Truthy(s.inbox[0]) ==>
              Send(cfg, s, path, params).result == Err(NotJson) &&
              Send(cfg, s, path, params).result.error.Code() == ErrorCodeNotJson
    ensures s.inbox != [] && Prop(s.inbox[0], "status") == JInt(200) ==>
              Send(cfg, s, path, params).result == Ok(s.inbox[0])
  {
    if s.inbox != [] && Prop(s.inbox[0], "status") == JInt(200) {
      assert s.inbox[0].JObj?;
    }
  }

  /** A decoded body whose status is not the integer 200 raises that status
      as the code, unless it is loosely 404 while the retry budget is up;
      outside that recovery the body's resultKey, if any, has been taken
      before the status was looked at. */
  lemma SendRejects(cfg: Config, s: State, path: string, params: map<string, Json>)
    requires s.inbox != [] && Truthy(s.inbox[0])
    requires !(LooselyEqualsInt(Prop(s.inbox[0], "status"), 404) && s.shouldRetry)
    ensures Prop(s.inbox[0], "status") != JInt(200) ==>
              Send(cfg, s, path, params).result == Err(RequestFailed(Prop(s.inbox[0], "status"))) &&
              Send(cfg, s, path, params).result.error.Code() == ExceptionCode(Prop(s.inbox[0], "status"))
    ensures Send(cfg, s, path, params).post.resultKey == CaptureKey(s.resultKey, s.inbox[0])
  {
    var json := s.inbox[0];
    var sent := Request(BaseUrl + path, Inject(params, cfg, s.session));
    var s1 := s.(log := s.log + [sent], inbox := s.inbox[1..], resultKey := CaptureKey(s.resultKey, json));
    if Prop(json, "status") != JInt(200) {
      assert Send(cfg, s, path, params) == Run(Err(RequestFailed(Prop(json, "status"))), s1);
    } else {
      assert Send(cfg, s, path, params) == Run(Ok(json), s1);
    }
  }

  /** login() without the retry budget posts exactly InitialApp.php and
      then, if baseprm came back, UserLoginRequest.php. */
  lemma LoginRequests(cfg: Config, s: State)
    requires !s.shouldRetry
    ensures var r := Login(cfg, s);
            r.result.Ok? ==>
              |r.post.log| == |s.log| + 2 &&
              r.post.log[|s.log|].url == BaseUrl + InitialAppPath &&
              r.post.log[|s.log| + 1].url == BaseUrl + UserLoginPath
  {
    SendOutcome(cfg, s, InitialAppPath, map[]);
    var initial := Send(cfg, s, InitialAppPath, map[]);
    if initial.result.Ok? {
      var basePrm := Prop(initial.result.value, "baseprm");
      if !Empty(basePrm) {
        var s1 := initial.post.(session := initial.post.session.(basePRM := basePrm));
        SendOutcome(cfg, s1, UserLoginPath, Credentials(cfg, basePrm));
      }
    }
  }

  /** login() raises 403 when InitialApp.php answers without a baseprm, and
      then posts nothing more. */
  lemma LoginNeedsBaseprm(cfg: Config, s: State)
    requires Send(cfg, s, InitialAppPath, map[]).result.Ok?
    requires Empty(Prop(Send(cfg, s, InitialAppPath, map[]).result.value, "baseprm"))
    ensures Login(cfg, s).result == Err(LoginFailed) && Login(cfg, s).result.error.Code() == ErrorCodeLoginFailed
    ensures Login(cfg, s).post == Send(cfg, s, InitialAppPath, map[]).post
  {
  }

  /** login() after a baseprm: the identifiers UserLoginRequest.php
      answers with decide. If all three are non-empty afterwards the login
      succeeds with them; if any is still empty it raises 403. */
  lemma LoginNeedsIdentifiers(cfg: Config, s: State)
    requires Send(cfg, s, InitialAppPath, map[]).result.Ok?
    requires !Empty(Prop(Send(cfg, s, InitialAppPath, map[]).result.value, "baseprm"))
    ensures var initial := Send(cfg, s, InitialAppPath, map[]);
            var basePrm := Prop(initial.result.value, "baseprm");
            var s1 := initial.post.(session := initial.post.session.(basePRM := basePrm));
            var login := Send(cfg, s1, UserLoginPath, Credentials(cfg, basePrm));
            login.result.Ok? ==>
              var session := Extracted(login.post.session, login.result.value);
              (!Complete(session) ==>
                 Login(cfg, s) == Run(Err(LoginFailed), login.post.(session := session)) &&
                 Login(cfg, s).result.error.Code() == ErrorCodeLoginFailed) &&
              (Complete(session) ==> Login(cfg, s) == Run(Ok(()), login.post.(session := session)))
  {
  }

  /** prepare() on an incomplete session: the session file, when it is
      read, is used as it is if it is complete, with no request at all;
      otherwise prepare() is login() on the session as the file step left
      it, followed by the write of the session file when login succeeds. */
  lemma PrepareUsesFile(cfg: Config, s: State, skipLocalFile: bool)
    requires !Complete(s.session)
    ensures var session := if s.stored.Some? && !skipLocalFile then Loaded(s.session, s.stored.value) else s.session;
            var r := Prepare(cfg, s, skipLocalFile);
            (Complete(session) ==> r == Run(Ok(()), s.(session := session))) &&
            (!Complete(session) ==>
               var login := Login(cfg, s.(session := session));
               r.result == login.result &&
               r.post == if login.result.Ok? then login.post.(stored := Some(RecordOf(login.post.session))) else login.post)
  {
    var session := if s.stored.Some? && !skipLocalFile then Loaded(s.session, s.stored.value) else s.session;
    if Complete(session) {
      PrepareAdoptsFile(cfg, s, skipLocalFile, session);
    } else {
      PrepareLogsIn(cfg, s, skipLocalFile, session);
    }
  }

  /** The file half of PrepareUsesFile. */
  lemma PrepareAdoptsFile(cfg: Config, s: State, skipLocalFile: bool, session: Session)
    requires !Complete(s.session) && Complete(session)
    requires session == if s.stored.Some? && !skipLocalFile then Loaded(s.session, s.stored.value) else s.session
    ensures Prepare(cfg, s, skipLocalFile) == Run(Ok(()), s.(session := session))
  {
  }

  /** The login half of PrepareUsesFile. */
  lemma PrepareLogsIn(cfg: Config, s: State, skipLocalFile: bool, session: Session)
    requires !Complete(s.session) && !Complete(session)
    requires session == if s.stored.Some? && !skipLocalFile then Loaded(s.session, s.stored.value) else s.session
    ensures var login := Login(cfg, s.(session := session));
            Prepare(cfg, s, skipLocalFile) == Saved(login)
  {
  }

  /** What prepare() makes of login()'s outcome: on success the session
      file is written with the new identifiers. */
  function Saved(login: Run<()>): (r: Run<()>)
    ensures r.result == login.result
    ensures r.post == if login.result.Ok? then login.post.(stored := Some(RecordOf(login.post.session))) else login.post
  {
    if login.result.Ok? then Run(login.result, login.post.(stored := Some(RecordOf(login.post.session)))) else login
  }

  /** prepare(TRUE) on an incomplete session is login() followed by the
      write of the session file: whatever the file holds is not read. */
  lemma PrepareSkipsFile(cfg: Config, s: State)
    requires !Complete(s.session)
    ensures var r, login := Prepare(cfg, s, true), Login(cfg, s);
            r.result == login.result &&
            (login.result.Ok? ==> r.post == login.post.(stored := Some(RecordOf(login.post.session))))
  {
    assert s.(session := s.session) == s;
    PrepareLogsIn(cfg, s, true, s.session);
  }

  /** The recovery after a 404, once it succeeds, has posted three requests:
      InitialApp.php, UserLoginRequest.php and the request again with the
      new session, which is then in the session file. */
  lemma RecoverRequests(cfg: Config, s: State, path: string, params: map<string, Json>)
    requires !s.shouldRetry && !Complete(s.session)
    ensures var r := Recover(cfg, s, path, params);
            r.result.Ok? ==>
              |r.post.log| == |s.log| + 3 &&
              r.post.log[..|s.log|] == s.log &&
              r.post.log[|s.log|].url == BaseUrl + InitialAppPath &&
              r.post.log[|s.log| + 1].url == BaseUrl + UserLoginPath &&
              r.post.log[|s.log| + 2] == Request(BaseUrl + path, Inject(params, cfg, r.post.session)) &&
              r.post.stored == Some(RecordOf(r.post.session))
  {
    PrepareSkipsFile(cfg, s);
    var login := Login(cfg, s);
    if login.result.Ok? {
      LoginRequests(cfg, s);
      LoginKeeps(cfg, s);
      var prepared := Prepare(cfg, s, true);
      SendOutcome(cfg, prepared.post, path, params);
    }
  }

  /** The one-shot recovery: a 404 while the retry budget is up lowers the
      flag for good and, when it succeeds, has posted four requests: the
      original, InitialApp.php, UserLoginRequest.php (the session file is
      skipped even if it holds a complete record) and the same path again
      with the new session; the new session is in the file. */
  lemma SendRecovers(cfg: Config, s: State, path: string, params: map<string, Json>)
    requires s.shouldRetry && s.inbox != [] && Truthy(s.inbox[0])
    requires Prop(s.inbox[0], "status") != JInt(200) && LooselyEqualsInt(Prop(s.inbox[0], "status"), 404)
    ensures !Send(cfg, s, path, params).post.shouldRetry
    ensures var r := Send(cfg, s, path, params);
            r.result.Ok? ==>
              |r.post.log| == |s.log| + 4 &&
              r.post.log[|s.log|] == Request(BaseUrl + path, Inject(params, cfg, s.session)) &&
              r.post.log[|s.log| + 1].url == BaseUrl + InitialAppPath &&
              r.post.log[|s.log| + 2].url == BaseUrl + UserLoginPath &&
              r.post.log[|s.log| + 3] == Request(BaseUrl + path, Inject(params, cfg, r.post.session)) &&
              r.post.stored == Some(RecordOf(r.post.session))
  {
    var sent := Request(BaseUrl + path, Inject(params, cfg, s.session));
    var s1 := s.(log := s.log + [sent], inbox := s.inbox[1..], resultKey := CaptureKey(s.resultKey, s.inbox[0]));
    var s2 := Expired(s1);
    assert Send(cfg, s, path, params) == Recover(cfg, s2, path, sent.params);
    RecoverRequests(cfg, s2, path, sent.params);
    var r := Recover(cfg, s2, path, sent.params);
    if r.result.Ok? {
      InjectTwice(params, cfg, s.session, r.post.session);
      assert r.post.log[|s.log|] == r.post.log[..|s2.log|][|s.log|];
    }
  }

  // ---------------------------------------------------------------------
  // waitUntilSuccess(): what its polls keep

  /** After the polls so far of a wait that started in `w0`: both invariants
      hold, the result key is still set, and unless nothing has happened yet
      the first request was `first`. */
  predicate Polling(cfg: Config, w0: State, w: State, first: Request) {
    Evolves(cfg, w0, w) && KeyTracks(w0, w) && IsSet(w.resultKey) &&
    (w == w0 || (|w.log| > |w0.log| && w.log[|w0.log|] == first))
  }

  /** One more poll keeps Polling. */
  lemma PollStep(cfg: Config, w0: State, w: State, path: string, params: map<string, Json>)
    requires IsSet(w0.resultKey)
    requires Polling(cfg, w0, w, Request(BaseUrl + path, Inject(params, cfg, w0.session)))
    ensures Polling(cfg, w0, Send(cfg, w, path, params).post, Request(BaseUrl + path, Inject(params, cfg, w0.session)))
    ensures Send(cfg, w, path, params).post != w0
  {
    SendKeeps(cfg, w, path, params);
    SendOutcome(cfg, w, path, params);
    var r := Send(cfg, w, path, params);
    ChainTrans(cfg, w0, w, r.post);
    LatestKeyStaysSet(w0.resultKey, Consumed(w0, r.post));
    assert r.post.log[..|w.log|] == w.log;
    if w != w0 {
      assert r.post.log[|w0.log|] == w.log[|w0.log|];
    }
  }

  /** A successful poll hands back the last answer consumed since the wait
      started, and clearing the key then keeps the log invariant; a failed
      one fails with a request error. */
  lemma PollOutcome(cfg: Config, w0: State, w: State, path: string, params: map<string, Json>)
    requires Evolves(cfg, w0, w)
    ensures var r := Send(cfg, w, path, params);
            r.result.Ok? ==>
              Prop(r.result.value, "status") == JInt(200) && Answered(w0, r.post, r.result.value) &&
              Evolves(cfg, w0, r.post.(resultKey := JNull))
    ensures var r := Send(cfg, w, path, params); r.result.Err? ==> RequestError(r.result.error)
  {
    SendKeeps(cfg, w, path, params);
    SendOutcome(cfg, w, path, params);
    var r := Send(cfg, w, path, params);
    EvolvesTrans(cfg, w0, w, r.post);
    AnsweredLater(cfg, w0, w, r.post, r.result);
  }

  /** How a wait that started in `w0` with its key set and ended in `w`
      came out: the state evolved, the first request was `first`; success hands back the last
      answer consumed, with a truthy responseFlag and status 200, and clears
      the key; failure is a timeout or a request error and leaves a key. */
  predicate Waited(cfg: Config, w0: State, w: State, first: Request, r: Result<Json>) {
    Evolves(cfg, w0, w) && |w.log| > |w0.log| && w.log[|w0.log|] == first &&
    (r.Ok? ==>
       Truthy(Prop(r.value, "responseFlag")) && Prop(r.value, "status") == JInt(200) &&
       Answered(w0, w, r.value) && w.resultKey == JNull) &&
    (r.Err? ==> (r.error == Timeout || RequestError(r.error)) && KeyTracks(w0, w) && IsSet(w.resultKey))
  }

  /** A poll that found the final answer ends the wait once the key is cleared. */
  lemma WaitedDone(cfg: Config, w0: State, w: State, first: Request, json: Result<Json>)
    requires Polling(cfg, w0, w, first) && w != w0
    requires json.Ok? && Truthy(Prop(json.value, "responseFlag"))
    requires Prop(json.value, "status") == JInt(200) && Answered(w0, w, json.value)
    requires Evolves(cfg, w0, w.(resultKey := JNull))
    ensures Waited(cfg, w0, w.(resultKey := JNull), first, json)
  {
  }

  /** A poll that failed, or a clock past the limit, ends the wait with that error. */
  lemma WaitedFailed(cfg: Config, w0: State, w: State, first: Request, r: Result<Json>)
    requires Polling(cfg, w0, w, first) && w != w0
    requires r.Err? && (r.error == Timeout || RequestError(r.error))
    ensures Waited(cfg, w0, w, first, r)
  {
  }

  // ---------------------------------------------------------------------
  // waitUntilSuccess(): the loop

  /** time() and sleep() as a value: the current time and the scripted
      delays still to come. Each time() first lets the next delay pass, the
      time the requests since the last reading took; with the script used
      up no more time passes that way. */
  datatype Timer = Timer(now: int, lags: seq<nat>)

  /** The clock once time() has been called. */
  function Read(c: Timer): (d: Timer)
    ensures d.now >= c.now
    ensures c.lags != [] ==> d.now == c.now + c.lags[0] && d.lags == c.lags[1..]
    ensures c.lags == [] ==> d == c
  {
    if c.lags == [] then c else Timer(c.now + c.lags[0], c.lags[1..])
  }

  /** The clock after sleep(seconds): exactly that many seconds later. */
  function Nap(c: Timer, seconds: nat): (d: Timer)
    ensures d.now == c.now + seconds && d.lags == c.lags
  {
    c.(now := c.now + seconds)
  }

  /** An outcome that also took time: the result, the protocol state and
      the clock it leaves. */
  datatype Timed<T> = Timed(result: Result<T>, post: State, clock: Timer)

  /** The loop of waitUntilSuccess() from clock `c`, `start` being the time
      read before the first poll: poll; a truthy responseFlag clears the key
      and ends the wait with that answer; otherwise read the clock, give up
      with Timeout once more than `maxWait` seconds have passed since
      `start`, and sleep one second before polling again. */
  function Wait(cfg: Config, s: State, path: string, params: map<string, Json>, start: int, maxWait: int, c: Timer): Timed<Json>
    decreases if c.now - start <= maxWait + 1 then maxWait + 1 - (c.now - start) else 0
  {
    var poll := Send(cfg, s, path, params);
    if poll.result.Err? then
      Timed(poll.result, poll.post, c)
    else if Truthy(Prop(poll.result.value, "responseFlag")) then
      Timed(poll.result, poll.post.(resultKey := JNull), c)
    else
      var t := Read(c);
      if t.now - start > maxWait then Timed(Err(Timeout), poll.post, t)
      else Wait(cfg, poll.post, path, params, start, maxWait, Nap(t, 1))
  }

  /** waitUntilSuccess(): MissingResultKey while no key is held; otherwise
      read the start time and poll with the key as the only parameter. */
  function WaitUntilSuccess(cfg: Config, s: State, path: string, maxWait: int, c: Timer): Timed<Json> {
    if Empty(s.resultKey) then
      Timed(Err(MissingResultKey), s, c)
    else
      var t := Read(c);
      Wait(cfg, s, path, map["resultKey" := s.resultKey], t.now, maxWait, t)
  }

  /** The answers a wait saw, in order: every successful poll's body. */
  function Answers(cfg: Config, s: State, path: string, params: map<string, Json>, start: int, maxWait: int, c: Timer): seq<Json>
    decreases if c.now - start <= maxWait + 1 then maxWait + 1 - (c.now - start) else 0
  {
    var poll := Send(cfg, s, path, params);
    if poll.result.Err? then []
    else if Truthy(Prop(poll.result.value, "responseFlag")) then [poll.result.value]
    else
      var t := Read(c);
      if t.now - start > maxWait then [poll.result.value]
      else [poll.result.value] + Answers(cfg, poll.post, path, params, start, maxWait, Nap(t, 1))
  }

  /** What the loop guarantees, for a wait that started in `w0` with its key
      set and has reached `s`: Waited holds of its end; a timeout comes only
      from a reading more than `maxWait` past the start; a wait that ends
      otherwise ends no later than one second past the limit. */
  lemma {:induction false} WaitOutcome(cfg: Config, w0: State, s: State, path: string, params: map<string, Json>,
                                       start: int, maxWait: int, c: Timer)
    requires IsSet(w0.resultKey)
    requires Polling(cfg, w0, s, Request(BaseUrl + path, Inject(params, cfg, w0.session)))
    decreases if c.now - start <= maxWait + 1 then maxWait + 1 - (c.now - start) else 0
    ensures var w := Wait(cfg, s, path, params, start, maxWait, c);
            Waited(cfg, w0, w.post, Request(BaseUrl + path, Inject(params, cfg, w0.session)), w.result)
    ensures var w := Wait(cfg, s, path, params, start, maxWait, c);
            w.clock.now >= c.now &&
            (w.result == Err(Timeout) ==> w.clock.now - start > maxWait) &&
            (w.result != Err(Timeout) && c.now - start <= maxWait + 1 ==> w.clock.now - start <= maxWait + 1)
  {
    var first := Request(BaseUrl + path, Inject(params, cfg, w0.session));
    PollStep(cfg, w0, s, path, params);
    PollOutcome(cfg, w0, s, path, params);
    var poll := Send(cfg, s, path, params);
    var w := Wait(cfg, s, path, params, start, maxWait, c);
    if poll.result.Err? {
      assert w == Timed(poll.result, poll.post, c);
      WaitedFailed(cfg, w0, poll.post, first, poll.result);
    } else if Truthy(Prop(poll.result.value, "responseFlag")) {
      assert w == Timed(poll.result, poll.post.(resultKey := JNull), c);
      WaitedDone(cfg, w0, poll.post, first, poll.result);
    } else {
      var t := Read(c);
      if t.now - start > maxWait {
        assert w == Timed(Err(Timeout), poll.post, t);
        WaitedFailed(cfg, w0, poll.post, first, Err(Timeout));
      } else {
        assert w == Wait(cfg, poll.post, path, params, start, maxWait, Nap(t, 1));
        WaitOutcome(cfg, w0, poll.post, path, params, start, maxWait, Nap(t, 1));
      }
    }
  }

  /** Without the retry budget sendRequest() posts one request and consumes
      exactly one answer, the one it hands back on success. */
  lemma SendWithoutRetry(cfg: Config, s: State, path: string, params: map<string, Json>)
    requires !s.shouldRetry && s.inbox != []
    ensures var r := Send(cfg, s, path, params);
            r.post.inbox == s.inbox[1..] && (r.result.Ok? ==> r.result.value == s.inbox[0])
  {
  }

  /** The answers `a` of a wait that ended in `r` tell its story: every
      answer before the last had a falsy responseFlag; a successful wait
      returns the last answer, whose flag is truthy; a timeout follows an
      answer whose flag was falsy; a request error leaves only non-final
      answers behind. */
  predicate Story(a: seq<Json>, r: Result<Json>) {
    (forall i :: 0 <= i < |a| - 1 ==> !Truthy(Prop(a[i], "responseFlag"))) &&
    (r.Ok? ==> |a| > 0 && r.value == a[|a| - 1] && Truthy(Prop(a[|a| - 1], "responseFlag"))) &&
    (r == Err(Timeout) ==> |a| > 0 && !Truthy(Prop(a[|a| - 1], "responseFlag"))) &&
    (r.Err? && r != Err(Timeout) ==> forall i :: 0 <= i < |a| ==> !Truthy(Prop(a[i], "responseFlag")))
  }

  /** A non-final answer in front keeps the story. */
  lemma StoryCons(v: Json, rest: seq<Json>, r: Result<Json>)
    requires !Truthy(Prop(v, "responseFlag")) && Story(rest, r)
    ensures Story([v] + rest, r)
  {
    var a := [v] + rest;
    assert forall i :: 1 <= i < |a| ==> a[i] == rest[i - 1];
  }

  lemma {:induction false} WaitAnswers(cfg: Config, s: State, path: string, params: map<string, Json>,
                                       start: int, maxWait: int, c: Timer)
    decreases if c.now - start <= maxWait + 1 then maxWait + 1 - (c.now - start) else 0
    ensures Story(Answers(cfg, s, path, params, start, maxWait, c), Wait(cfg, s, path, params, start, maxWait, c).result)
  {
    var poll := Send(cfg, s, path, params);
    var a, w := Answers(cfg, s, path, params, start, maxWait, c), Wait(cfg, s, path, params, start, maxWait, c);
    SendOutcome(cfg, s, path, params);
    if poll.result.Err? {
      assert a == [] && w.result == poll.result;
    } else if Truthy(Prop(poll.result.value, "responseFlag")) {
      assert a == [poll.result.value] && w.result == poll.result;
    } else {
      var t := Read(c);
      if t.now - start > maxWait {
        assert a == [poll.result.value] && w.result == Err(Timeout);
      } else {
        var rest := Answers(cfg, poll.post, path, params, start, maxWait, Nap(t, 1));
        assert a == [poll.result.value] + rest;
        assert w == Wait(cfg, poll.post, path, params, start, maxWait, Nap(t, 1));
        WaitAnswers(cfg, poll.post, path, params, start, maxWait, Nap(t, 1));
        StoryCons(poll.result.value, rest, w.result);
      }
    }
  }

  /** The answers waitUntilSuccess() polls, from the start reading on,
      tell the story of its result: it stops at the first answer whose
      responseFlag is truthy and returns that answer. */
  lemma WaitUntilSuccessAnswers(cfg: Config, s: State, path: string, maxWait: int, c: Timer)
    requires !Empty(s.resultKey)
    ensures var t := Read(c);
            Story(Answers(cfg, s, path, map["resultKey" := s.resultKey], t.now, maxWait, t),
                  WaitUntilSuccess(cfg, s, path, maxWait, c).result)
  {
    var t := Read(c);
    WaitAnswers(cfg, s, path, map["resultKey" := s.resultKey], t.now, maxWait, t);
  }

  /** waitUntilSuccess() as a whole: without a key nothing happens; with
      one, Waited holds from the state it started in with the key as the
      only caller parameter, a timeout means a reading more than `maxWait`
      after the start reading, and the clock never goes back. */
  lemma WaitUntilSuccessOutcome(cfg: Config, s: State, path: string, maxWait: int, c: Timer)
    ensures var w := WaitUntilSuccess(cfg, s, path, maxWait, c);
            (Empty(s.resultKey) ==> w == Timed(Err(MissingResultKey), s, c)) &&
            (!Empty(s.resultKey) ==>
               Waited(cfg, s, w.post, Request(BaseUrl + path, Inject(map["resultKey" := s.resultKey], cfg, s.session)), w.result) &&
               (w.result == Err(Timeout) ==> w.clock.now - Read(c).now > maxWait) &&
               (w.result != Err(Timeout) && maxWait >= 0 ==> w.clock.now - Read(c).now <= maxWait + 1)) &&
            w.clock.now >= c.now
  {
    if !Empty(s.resultKey) {
      var params := map["resultKey" := s.resultKey];
      assert Evolves(cfg, s, s) && KeyTracks(s, s);
      WaitOutcome(cfg, s, s, path, params, Read(c).now, maxWait, Read(c));
    }
  }
}
