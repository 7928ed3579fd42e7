# NissanConnect client, modelled in Dafny

This model covers the PHP class `NissanConnect`, a client for Nissan's
"NissanConnect EV" (formerly CarWings) web API. The client holds three
session identifiers: the car's VIN, DCMID and custom session id. It also
holds a pending `resultKey` and a one-shot `shouldRetry` flag. Its private
methods implement a small protocol:

- `sendRequest` adds the seven session fields to every POST.
- `sendRequest` stores any `resultKey` the server sends.
- `sendRequest` accepts only status 200.
- On a 404, `sendRequest` recovers once: it logs in again without the
  session file and sends the request again.
- `prepare` uses the identifiers it holds or reads from the session file,
  and logs in when it has no complete set.
- `login` fetches `baseprm`, posts the encrypted password and takes the
  three identifiers from the nested response.
- `waitUntilSuccess` polls once a second until the answer carries a truthy
  `responseFlag`, or until more than `maxWaitTime` seconds have passed.
- `_checkStatusResult` validates the records that `getStatus` fetches.
- `pkcs5_pad` pads the password before it is encrypted.

The project has six modules.

- `Optional` (option.dfy) defines the Option type.
- `PhpValues` (php_values.dfy) models what `json_decode` returns and the PHP
  8 rules the class relies on: `empty()`, `isset()`, loose `==` against an
  int or a word, `(int)` casts and int parameters, int-to-string
  conversion and `strtoupper`.
  - Numbers at the front of a string are read as PHP 8 reads them:
    leading whitespace, a sign, digits, a fraction and an exponent. Their
    value is kept as an exact decimal.
  - Lemmas prove that `(int)` reads back a printed integer, that "5e3"
    casts to 5000, that a fraction is cut off, that "404.0" == 404 holds
    and "404abc" == 404 does not, and that "404abc" gives 404 when it is
    passed as an int.
- `Padding` (padding.dfy) holds `pkcs5_pad`, the padding of section 6.1.1
  of RFC 8018 (also section 10.3 of RFC 2315).
  - It also holds the matching unpadding, with the round trip proved.
- `Protocol` (protocol.dfy) holds `sendRequest`, `prepare` and `login` as
  mutually recursive functions over an explicit `State`. The state holds
  the session, the result key, the retry flag, the server's remaining
  answers, the requests posted and the session file.
  - Termination comes from the retry flag: it is lowered once and never
    raised again.
  - Two invariants are proved for all three functions: `Evolves` and
    `KeyTracks`.
  - Their outcomes are proved as well: success codes, error codes, the
    shape of the recovery, and completeness of the session after a
    successful `prepare`/`login`.
- `Protocol` also holds `waitUntilSuccess` as a function of a `Timer`
  value: the current time and the delays still to come.
  - It proves the wait ends at the first answer with a truthy
    `responseFlag` and returns that answer.
  - It proves when a timeout can happen.
- `Status` (status.dfy) holds `getStatus` as functions: `Refresh` (prepare,
  the status-check request and the wait, by option), `Fetch` and `Records` (the
  two record requests with `_checkStatusResult`) and `GetStatus`.
  - It also holds the TimeRequiredToFull entries and the cruising-range
    unit, which has a finding.
- `Client` (client.dfy) holds the class itself: a `NissanConnect` object
  whose fields those methods update.
  - It works with three collaborator objects: a `Transport` (a script of
    decoded answers plus a log of posted requests), a `SessionStore` (the
    decoded session file) and a `Clock` (`time()` and `sleep()`).
  - Each of `SendRequest`, `Prepare` and `Login` is proved to compute
    exactly the matching `Protocol` function on the object's state.
  - `WaitUntilSuccess` is the polling loop. Its loop invariant says the
    rest of the loop computes what `Protocol.Wait` computes from the
    current state and clock.
  - `GetStatus`, `RefreshStatus`, `ReadStatus` and `FetchRecords` are
    proved equal to the matching `Status` functions.

Inputs are parameters of the model:

- The server's answers are the `Transport`'s script. A post with no answer
  left stands for a curl failure.
- The session file's content is the `SessionStore`'s value.
- The passage of time is the `Clock`'s starting time and a list of delays.
  Each `time()` first lets the next delay pass: the time the requests since
  the last reading took. Each `sleep(n)` adds exactly n seconds.
- `encryptPassword` is a function the object is constructed with.

## Model

| member | source | states |
|---|---|---|
| Padding.Pkcs5Pad | NissanConnect.class.php:385-388 | The result length is a multiple of the block size. The text is a prefix of the result. Between 1 and blocksize bytes are appended, each equal to chr of the pad count. A text already on a block boundary gets a whole block. |
| Padding.PadIsShortest | NissanConnect.class.php:385-388 | No shorter non-empty pad reaches a block boundary. |
| Padding.Pkcs5Unpad | NissanConnect.class.php:385-388 | The receiver's inverse. Any text it returns is a strict prefix of the padded input. |
| Padding.UnpadPad | NissanConnect.class.php:385-388 | For block sizes 1 to 255 (Blowfish's is 8), unpadding the padded text gives back the text. |
| Padding.WideBlockLosesCount | NissanConnect.class.php:385-388 | For any block size that is a multiple of 256 and any text on a block boundary, chr() wraps the pad count to 0: the last byte is 0 and the padding cannot be read back. |
| PhpValues.ToUpper | NissanConnect.class.php:66 | strtoupper keeps the length and upper-cases each ASCII letter. |
| PhpValues.StringToInt | NissanConnect.class.php:176-177 | `(int)` of a string stays within PHP_INT_MIN..PHP_INT_MAX. |
| PhpValues.StringToIntRoundTrip | NissanConnect.class.php:176-185 | For any 64-bit int, `(int)` of its decimal text gives the int back, whatever follows that does not continue the number. |
| PhpValues.ScanIntToString | NissanConnect.class.php:176-177 | Reading a printed int gives its sign, its digits and the rest, in integer form, and the value truncates to the int. |
| PhpValues.ExponentString | NissanConnect.class.php:176-177 | "5e3" is read with an exponent, and `(int)"5e3"` is 5000. |
| PhpValues.ExponentForm | NissanConnect.class.php:176-177 | For any digits, an 'e', any exponent digits and text that does not start with a digit, the number is read with that exponent, and `(int)` gives the whole part times ten to the exponent, saturated to the 64-bit range. |
| PhpValues.NoLeadingNumber | NissanConnect.class.php:176-177 | A string whose first character is not whitespace, a sign, a digit or a point holds no number. |
| PhpValues.FractionTruncates | NissanConnect.class.php:176-177 | `(int)` of a non-negative whole part, a point and fraction digits is the whole part: the fraction is cut off. |
| PhpValues.NoNumberCastsToZero | NissanConnect.class.php:176-177 | A string that does not start with a number casts to 0. |
| PhpValues.IntParamLeadingNumber | NissanConnect.class.php:326 | A status string made of a non-negative in-range integer, followed by text that does not continue the number (no digit, '.', 'e' or 'E'), gives that integer as the Exception code: "404abc" gives 404. |
| PhpValues.IntegralFloatEquals | NissanConnect.class.php:319 | Under PHP 8's loose `==`, a float text such as "404.0" equals 404. |
| PhpValues.TrailingTextNotEqual | NissanConnect.class.php:319 | A number followed by text that does not continue it and holds any character other than whitespace is not numeric. So "404abc" == 404 and "404 abc" == 404 are false. |
| Protocol.Inject | NissanConnect.class.php:288-294 | The keys are the caller's keys plus the seven session keys. Those seven take the config values and override the caller's. Every other caller parameter is unchanged. |
| Protocol.InjectTwice | NissanConnect.class.php:319-324 | Re-sending the injected parameters is the same as injecting the caller's parameters with the new session. |
| Protocol.CaptureKey | NissanConnect.class.php:313-317 | A decoded body that is truthy and has a resultKey set replaces the held key with it. Any other body leaves the key. A set key stays set. |
| Protocol.LatestKeyAppend | NissanConnect.class.php:314-317 | The result-key slot has one overwriting value. Handling a+b gives the same slot as handling a, then b. |
| Protocol.LatestKeyStaysSet | NissanConnect.class.php:314-317 | Once the key slot is set, no response sets it back to null. |
| Protocol.EvolvesTrans | NissanConnect.class.php:287-333 | The step invariant is transitive. |
| Protocol.ChainTrans | NissanConnect.class.php:287-333 | The step invariant and key tracking compose across consecutive steps. |
| Protocol.AnsweredLater | NissanConnect.class.php:287-333 | An answer that was consumed last stays the last one consumed since any earlier state. |
| Protocol.RecordOf | NissanConnect.class.php:241 | The saved record is an object with exactly the keys vin, dcmid and sessionid, holding the three identifiers. |
| Protocol.Loaded | NissanConnect.class.php:234-237 | Reading the file keeps baseprm. The loaded session is complete exactly when the record is. A record that is not an object gives three nulls. |
| Protocol.RecordRoundTrip | NissanConnect.class.php:233-241 | The record prepare() writes reads back as the same three identifiers. It is complete exactly when the session is. |
| Protocol.Extracted | NissanConnect.class.php:265-273 | baseprm is kept. Each identifier is set after login exactly when it was set before or the response sets it at its nested path, and then it takes the response's value. |
| Protocol.Send | NissanConnect.class.php:287-333 | sendRequest never raises the retry flag. |
| Protocol.Expired | NissanConnect.class.php:321-322 | The 404 branch lowers the retry flag and nulls the session id, so the session is incomplete. The request log, the answers, the file and the key are unchanged. |
| Protocol.Recover | NissanConnect.class.php:319-325 | After the recovery branch the retry flag is down. |
| Protocol.Prepare | NissanConnect.class.php:229-247 | prepare never raises the retry flag. |
| Protocol.Login | NissanConnect.class.php:254-277 | login never raises the retry flag. |
| Protocol.Credentials | NissanConnect.class.php:261-262 | The login parameters are exactly UserId, the username, and Password, the password encrypted with baseprm. |
| Protocol.SendKeeps | NissanConnect.class.php:287-333 | Through any recovery, the request log only grows. Every new request carries the seven session fields. Answers are consumed in order. The retry flag never returns. The file is untouched or holds a complete record. The key slot holds the latest resultKey among the consumed answers. |
| Protocol.RecoverKeeps | NissanConnect.class.php:319-325 | The same two invariants for the recovery branch. |
| Protocol.PrepareKeeps | NissanConnect.class.php:229-247 | The same two invariants for prepare(). |
| Protocol.LoginKeeps | NissanConnect.class.php:254-277 | The same two invariants for login(). |
| Protocol.SendOutcome | NissanConnect.class.php:287-333 | Success means status is the integer 200 and the result is the last answer consumed. Failure is only a request error. The first request posted is the caller's request with the session injected. Without the retry budget, exactly one request is posted and the session and file are unchanged. |
| Protocol.SendWithoutRetry | NissanConnect.class.php:306-329 | Without the retry budget, sendRequest consumes exactly the next answer and returns it on success. |
| Protocol.RecoverOutcome | NissanConnect.class.php:319-325 | The re-sent request succeeds only with status 200 and the last answer. It fails only with a request error. |
| Protocol.PrepareOutcome | NissanConnect.class.php:229-247 | A complete session makes prepare() do nothing. Success leaves all three identifiers non-empty. Failure is a request error, and without the retry budget a failure leaves the file unwritten. |
| Protocol.PrepareUsesFile | NissanConnect.class.php:229-247 | For an incomplete session and either flag value: the file is read unless the flag skips it or there is no file. If that makes the session complete, prepare() succeeds there with no request. Otherwise prepare() is login() on that session, and on success the session record is written to the file. |
| Protocol.PrepareSkipsFile | NissanConnect.class.php:229-243 | prepare(TRUE) on an incomplete session is exactly login() plus writing the file; the stored file is not read. |
| Protocol.LoginOutcome | NissanConnect.class.php:254-277 | Success leaves all three identifiers non-empty. Failure is a request error. Without the retry budget the file is unwritten. |
| Protocol.LoginRequests | NissanConnect.class.php:255-263 | A successful login without the retry budget posts exactly InitialApp.php, then UserLoginRequest.php. |
| Protocol.LoginNeedsBaseprm | NissanConnect.class.php:255-258 | An empty baseprm fails with code 403 and posts nothing more. |
| Protocol.LoginNeedsIdentifiers | NissanConnect.class.php:259-276 | After InitialApp.php gives a baseprm and UserLoginRequest.php succeeds, the identifiers are taken from the response. If they are still incomplete, login fails with code 403 in exactly that state. Otherwise it succeeds there. |
| Protocol.SendAnswers | NissanConnect.class.php:306-332 | With no body, the process dies. A falsy decoding fails with code 406. Integer status 200 returns the body unchanged. |
| Protocol.SendRejects | NissanConnect.class.php:313-326 | Outside the 404 recovery, a status other than 200 fails with that status as the code. The body's resultKey has already been captured. |
| Protocol.RecoverRequests | NissanConnect.class.php:319-325 | A successful recovery posts InitialApp.php and UserLoginRequest.php, then re-sends the request with the new session, which is saved to the file. |
| Protocol.SendRecovers | NissanConnect.class.php:319-325 | A 404 while the retry flag is up lowers it for good. On success, four requests are posted: the original, the two login requests, and the same path again with the new session. |
| Protocol.PollStep | NissanConnect.class.php:349-350 | Each poll keeps the wait's invariant, and the first request of the wait stays first. |
| Protocol.PollOutcome | NissanConnect.class.php:349-354 | A successful poll returns the last answer consumed since the wait began. Clearing the key after it keeps the step invariant. |
| Protocol.WaitedDone | NissanConnect.class.php:351-354 | A truthy responseFlag ends the wait with that answer and a null key. |
| Protocol.WaitedFailed | NissanConnect.class.php:355-357 | A failed poll or a timeout ends the wait with the key still set. |
| Protocol.Read | NissanConnect.class.php:348 | time() never goes back. It lets exactly the next scripted delay pass, or no time once the script is used up. |
| Protocol.Nap | NissanConnect.class.php:358 | sleep(n) moves the time on by exactly n seconds. |
| Protocol.WaitOutcome | NissanConnect.class.php:349-359 | The wait ends as Waited says: a truthy-flag answer with status 200 and a null key, or a timeout or request error with the key still set. The clock never goes back. A timeout comes only from a reading more than maxWaitTime after the start. Any other end is at most one second past the limit. |
| Protocol.StoryCons | NissanConnect.class.php:351-358 | An answer with a falsy responseFlag in front of a wait's answers keeps the wait's story. |
| Protocol.WaitAnswers | NissanConnect.class.php:349-359 | Every answer before the last has a falsy responseFlag. A successful wait returns the last answer, whose flag is truthy. A timeout follows an answer with a falsy flag. A request error follows only falsy ones. |
| Protocol.WaitUntilSuccessAnswers | NissanConnect.class.php:343-360 | waitUntilSuccess stops at the first answer with a truthy responseFlag and returns that answer. |
| Protocol.WaitUntilSuccessOutcome | NissanConnect.class.php:343-360 | An empty key fails with code 400 and changes nothing. Otherwise the first poll carries the key as its only caller parameter, and the wait ends as Waited says. A timeout means a reading more than maxWaitTime after the start reading. Any other end is at most one second past it. The clock never goes back. |
| Status.CheckStatusResult | NissanConnect.class.php:211-222 | Succeeds if and only if the record is non-empty, its OperationResult is non-empty, and that value loosely matches START, START_BATTERY or FINISH. Every failure has code 405. |
| Status.CheckStatusResultWords | NissanConnect.class.php:212-219 | A string OperationResult passes exactly when it is one of the three words. JSON true passes. Numbers, arrays, objects, null and false fail. |
| Status.FormatDuration | NissanConnect.class.php:179-185 | Formatted is empty exactly when both numbers are zero. Non-zero hours give the prefix "<hours>h ". With zero hours it is "<minutes>m " or empty. |
| Status.FormatDurationReadsBack | NissanConnect.class.php:179-185 | Formatted is empty exactly when both numbers are zero. Otherwise `(int)` reads back the first non-zero number, and the minutes follow "<hours>h ". |
| Status.ChargeTimeOf | NissanConnect.class.php:170-185 | An entry is null exactly when both its hour and minute values are empty. Otherwise its hours and minutes are their `(int)` casts, and its text is empty exactly when both casts are 0. |
| Status.ChargeTimeOfNonNumeric | NissanConnect.class.php:171-185 | For any non-empty hour string that does not start with a number, the entry is kept with 0 hours and the minutes' cast. When the minutes cast to 0 too, the entry is 0h 0m with empty text. |
| Status.NotAvailableHasNoNumber | NissanConnect.class.php:171-177 | "n/a" is non-empty and does not start with a number, so it is such an hour string. |
| Status.CruisingRangeUnitAsWritten | NissanConnect.class.php:188-196 | As written, the unit is miles exactly when the stored country is 'US', and km otherwise. |
| Status.UsClientReportsKilometres | NissanConnect.class.php:188-196 | As written, a client built with COUNTRY_US reports kilometres. |
| Status.CruisingRangeUnit | NissanConnect.class.php:188-196 | The corrected unit is miles exactly when the country is COUNTRY_US or 'US', and km otherwise. |
| Status.CruisingRangeUnitByRegion | NissanConnect.class.php:188-196 | Once corrected, COUNTRY_US gives miles and COUNTRY_CANADA gives km. |
| Status.Report | NissanConnect.class.php:170-196 | The report keeps both validated records. Its three charge-time entries are the TimeRequiredToFull, TimeRequiredToFull200 and TimeRequiredToFull200_6kW entries of the battery records, in that order. Its unit is the corrected unit. |
| Status.FetchChecks | NissanConnect.class.php:140-144 | A record fetch fails with 405 exactly when the request succeeded and the answer fails _checkStatusResult. It succeeds with the answer exactly when both succeed. A failed request is passed on. The state is the request's. |
| Status.RecordsOutcome | NissanConnect.class.php:140-144 | BatteryStatusRecordsRequest.php is posted first. Errors are request errors or 405. On success, the report's battery record is that request's answer. Its climate record is the answer to the next request, RemoteACRecordsRequest.php. Both passed _checkStatusResult, and the report is built from them. |
| Status.RecordsWithoutRetry | NissanConnect.class.php:140-144 | Without the retry budget, a success posts exactly the two record requests, in order. The battery and climate records are the next two answers. |
| Status.RefreshOutcome | NissanConnect.class.php:129-135 | The state evolves, and errors are request errors, 400 or 408. A failed prepare() ends it there. The cached option stops after prepare() with nothing posted and the clock untouched. Other options post BatteryStatusCheckRequest.php first, and the async option leaves the clock alone. A success means prepare() succeeded and left the session complete. A waited success polls BatteryStatusCheckResultRequest.php with the result key held after the check, and clears that key. That key is the check answer's resultKey when the answer carries one, and otherwise the key held before. |
| Status.GetStatusOutcome | NissanConnect.class.php:128-144 | The result is None exactly for the async option. Errors are request errors, 400, 408 or 405; the TypeErrors of lines 148, 189-194 and 199 are not modelled (see "## Left out"). After a successful refresh with another option, the result and state are exactly those of the two record fetches. A failed refresh is passed on. The clock is the refresh's. |
| Client.Transport.Post | NissanConnect.class.php:300-312 | Logs the request. It consumes the next answer, or reports failure when none is left. |
| Client.SessionStore.Load | NissanConnect.class.php:233-234 | Returns the stored record, or None when there is no file. |
| Client.SessionStore.Save | NissanConnect.class.php:241 | The file then holds the record. |
| Client.Clock.Time | NissanConnect.class.php:348 | The clock moves on as Protocol.Read says, and the new time is returned. |
| Client.Clock.Sleep | NissanConnect.class.php:358 | The clock moves on as Protocol.Nap says: exactly the requested seconds. |
| Client.NissanConnect.constructor | NissanConnect.class.php:61-72 | The country is upper-cased. The defaults are tz America/New_York, COUNTRY_US and null vin and DCMID. The session id is initially "". baseprm has its default. The retry flag is up. No result key. maxWaitTime is 290. |
| Client.NissanConnect.SendRequest | NissanConnect.class.php:287-333 | The result and the new object state are exactly Protocol.Send's. |
| Client.NissanConnect.Prepare | NissanConnect.class.php:229-247 | The result and the new object state are exactly Protocol.Prepare's. |
| Client.NissanConnect.LoadSessionFile | NissanConnect.class.php:233-237 | The three identifiers take the file's vin/dcmid/sessionid, null where missing. Nothing else changes. |
| Client.NissanConnect.Login | NissanConnect.class.php:254-277 | The result and the new object state are exactly Protocol.Login's. |
| Client.NissanConnect.TakeIdentifiers | NissanConnect.class.php:265-273 | The identifiers become Protocol.Extracted of the login response; nothing else changes. |
| Client.NissanConnect.WaitUntilSuccess | NissanConnect.class.php:343-360 | The result, the new object state and the new clock are exactly Protocol.WaitUntilSuccess's, so the lemmas about that function hold of the loop. |
| Client.NissanConnect.GetStatus | NissanConnect.class.php:128-144 | The default option is STATUS_QUERY_OPTION_NONE. The result, the new state and the clock are exactly Status.GetStatus's. |
| Client.NissanConnect.RefreshStatus | NissanConnect.class.php:129-135 | The result, the new state and the clock are exactly Status.Refresh's. |
| Client.NissanConnect.ReadStatus | NissanConnect.class.php:140-144 | The result and the new state are exactly Status.Records'. |
| Client.NissanConnect.FetchRecords | NissanConnect.class.php:140-144 | The result and the new state are exactly Status.Fetch's. |

## Left out

- The curl calls are not modelled. A post with no scripted answer left
  stands for curl_exec failing, where the source calls die(); the model ends
  that run with `TransportFailed`.
- The session file's path is not modelled: it comes from md5 of the
  username, which is a foreign hash. The store is a single optional decoded
  record.
- A session file that does not decode is treated as null.
- The session file changes only through this client. Another process that
  writes or deletes the shared file between calls is not modelled, and the
  source has no locking. The file clause of `Protocol.Evolves` (the file is
  untouched or holds a complete record) relies on this.
- `encryptPassword` is a construction parameter. Its mcrypt Blowfish-ECB,
  random IV and base64 are foreign library calls; only `pkcs5_pad` is
  modelled.
- The float and date fields of `getStatus` are not modelled: the kWh/WH
  casts, the cruising-range values, LastUpdated, PluggedIn/Charging and the
  whole RemoteAC part (lines 146-168 and 189-207). That includes the `(int)`
  casts of BatteryCapacity and BatteryRemainingAmount (lines 153-155). The
  model keeps the validated responses, the three TimeRequiredToFull entries
  and the range unit.
- Status.GetStatusOutcome: the TypeErrors that PHP 8 raises while building
  those fields are not modelled. They come from strtotime() given an array or
  an object (lines 148 and 199), and from `*` or `/` applied to a
  CruisingRangeAcOn or CruisingRangeAcOff that is a non-numeric string, an
  array or an object (lines 189-194). In those cases the model returns the
  report instead of failing.
- `debug`/`error_log` write only to the log, so they are left out.
- `startClimateControl`, `stopClimateControl` and `startCharge` are not
  modelled. Each is a public wrapper that calls `prepare()` and then sends
  one command. `startClimateControl` and `stopClimateControl` then call
  `waitUntilSuccess` only when `$waitForResult` is true, which defaults to
  FALSE. `startCharge` never waits.
- `time()` and `sleep()` are not real time. The clock starts at a given
  time. Each reading first adds the next scripted delay, and a reading
  after the script is used up adds nothing. The scripted delays are never
  negative, so the clock only moves forward. A wall clock that is set back
  during a wait is not modelled: in the source it could make the loop poll
  past `maxWaitTime`, possibly without end.
- JSON numbers with a fraction or exponent in a decoded body are not
  modelled: PHP reads them as floats. JSON integers are assumed to be
  within the 64-bit range.
- `Protocol.Request` holds the POST fields as a map, so their order is not
  modelled.
- Client.NissanConnect.GetStatus: it reports the corrected cruising-range
  unit, `Status.CruisingRangeUnit`. The source as written uses the unit of
  `Status.CruisingRangeUnitAsWritten`; the Findings row below has both. Like
  Status.GetStatusOutcome, it returns the report where lines 148, 189-194
  and 199 raise a TypeError.
- Status.Report: the same substitution of the corrected unit.
- PhpValues.StringToInt: numbers are read as exact decimals, not doubles.
  PHP loses precision above 2^53, gives 0 for values beyond the double
  range, and the model saturates those instead.
- PhpValues.LooselyEqualsInt: a numeric string is compared with an int by
  its exact decimal value. PHP 8 compares the two as doubles, so
  "404.0000000000000001" == 404 is true in PHP and false in the model.
- PhpValues.IntParam: PHP makes the 64-bit range test on a double; the model
  makes it on the exact value. A string without a leading number, or one
  out of range, raises a TypeError in PHP; the model gives the code 0.
- PhpValues.StringToIntRoundTrip: it needs the text after the number not to
  continue it (no digit, point or exponent mark), since such text would
  change the number that is read.
- When the status is an array or an object, PHP's Exception constructor
  raises a TypeError. The model gives such a status the code 0.
- The recovery after a 404 is traced here as four requests: the original,
  InitialApp.php, UserLoginRequest.php, and the re-send. That is because
  `login` posts two requests in this version of the class.

## Findings

| source | as written | input that shows it | evidently intended | confidence | as-written member | corrected member |
|---|---|---|---|---|---|---|
| NissanConnect.class.php:188 | The cruising range is reported in miles only when the stored country equals 'US'. But the constructor stores strtoupper of the argument (line 66), and the documented US constant is COUNTRY_US = 'NNA'. | `new NissanConnect(u, p, tz, NissanConnect::COUNTRY_US)` reports CruisingRangeUnit 'km' | Miles for the US region ('NNA') | not executed | Status.UsClientReportsKilometres (over Status.CruisingRangeUnitAsWritten) | Status.CruisingRangeUnitByRegion (over Status.CruisingRangeUnit, which Status.Report uses) |
