/**
 * The lookup service: it checks the vehicle type, then runs the captcha attempt
 * (fetch the captcha image, read it, submit the form, fetch the results page) with a
 * bounded number of retries when the site rejects the captcha.
 *
 * The network and the OCR engine are an oracle. `Network` gives, for each value of
 * the retry counter, what the site and the OCR engine answer during the attempt the
 * lookup makes with that counter. The library code whose behaviour the model does not
 * spell out (HTML parsing, URI syntax) is the parameter `lib`. Each model
 * operation returns its result together with the trace of requests it sent; every
 * request is tagged with the session (cookie store and client) it was sent in.
 */
module Service {
  import opened Wrappers
  import opened Strings
  import opened Violations
  import opened Extractor

  const BASE_URL := "https://www.csgt.vn"
  const CAPTCHA_PATH := "/lib/captcha/captcha.class.php"
  const FORM_ENDPOINT := "/?mod=contact&task=tracuu_post&ajax"
  const RESULTS_URL := "https://www.csgt.vn/tra-cuu-phuong-tien-vi-pham.html"
  const MAX_RETRIES: nat := 5

  /** The form response by which the site rejects the captcha. */
  const CAPTCHA_REJECTED := "404"
  /** The text the results page carries when the plate has no violations. */
  const NO_RESULTS_MARKER := "Không tìm thấy kết quả !"

  const INVALID_TYPE_MESSAGE := "Invalid vehicle type. Must be 1, 2, or 3"
  const MAX_RETRIES_MESSAGE := "Maximum retry attempts reached. Could not verify captcha."
  const INTERRUPTED_MESSAGE := "Request interrupted"
  const FETCH_FAILED_MESSAGE := "Failed to fetch traffic violations"
  const CAPTCHA_FAILED_PREFIX := "Failed to process captcha: "

  // ---------------------------------------------------------------------------
  // Validation
  // ---------------------------------------------------------------------------

  /** `String.matches("[123]")`: the whole string is one character among 1, 2 and 3. */
  predicate MatchesVehicleClass(s: string) {
    |s| == 1 && s[0] in "123"
  }

  /** `validateVehicleType`: `None` when the type is accepted, else the exception message. */
  function ValidateVehicleType(vehicleType: string): (error: Option<string>)
    ensures error.None? <==> vehicleType == "1" || vehicleType == "2" || vehicleType == "3"
    ensures error.Some? ==> error.value == INVALID_TYPE_MESSAGE
  {
    if MatchesVehicleClass(vehicleType) then None else Some(INVALID_TYPE_MESSAGE)
  }

  /** Only the three one-character types pass; near misses such as these are refused. */
  lemma NearMissTypes()
    ensures ValidateVehicleType("").Some? && ValidateVehicleType("12").Some?
    ensures ValidateVehicleType(" 1").Some? && ValidateVehicleType("4").Some?
    ensures ValidateVehicleType("1 ").Some? && ValidateVehicleType("2").None?
  {
  }

  // ---------------------------------------------------------------------------
  // Requests
  // ---------------------------------------------------------------------------

  datatype Param = Param(name: string, value: string)

  datatype HttpMethod = Get | Post

  /**
   * A request sent within session `session`: the captcha image download, the form
   * submission with the captcha text, or the results page download.
   */
  datatype Request =
    | CaptchaRequest(session: nat)
    | FormRequest(session: nat, plate: string, vehicleType: string, captcha: string)
    | ResultsRequest(session: nat, plate: string, vehicleType: string)

  /** The fields `postDataForm` submits, in order. */
  function FormParams(plate: string, vehicleType: string, captcha: string): seq<Param> {
    [Param("BienKS", plate), Param("Xe", vehicleType), Param("captcha", captcha),
     Param("ipClient", "9.9.9.91"), Param("cUrl", "1")]
  }

  /** `postDataForm` builds its parameter list by appending one pair at a time. */
  method BuildFormParams(plate: string, vehicleType: string, captcha: string)
    returns (params: seq<Param>)
    ensures params == FormParams(plate, vehicleType, captcha)
    ensures Lookup(params, "BienKS") == Some(plate)
    ensures Lookup(params, "Xe") == Some(vehicleType)
    ensures Lookup(params, "captcha") == Some(captcha)
  {
    params := [];
    params := params + [Param("BienKS", plate)];
    params := params + [Param("Xe", vehicleType)];
    params := params + [Param("captcha", captcha)];
    params := params + [Param("ipClient", "9.9.9.91")];
    params := params + [Param("cUrl", "1")];
    FormParamsLookup(plate, vehicleType, captcha);
  }

  /** The value of the first parameter called `name`, as a form decoder reads it. */
  function Lookup(params: seq<Param>, name: string): Option<string> {
    if params == [] then None
    else if params[0].name == name then Some(params[0].value)
    else Lookup(params[1..], name)
  }

  function Names(params: seq<Param>): seq<string> {
    seq(|params|, i requires 0 <= i < |params| => params[i].name)
  }

  /**
   * The form carries the five fields under distinct names, so each one reads back as
   * the value put in: the plate, the vehicle type, the captcha text and the two fixed
   * values.
   */
  lemma FormParamsLookup(plate: string, vehicleType: string, captcha: string)
    ensures var ps := FormParams(plate, vehicleType, captcha);
            Names(ps) == ["BienKS", "Xe", "captcha", "ipClient", "cUrl"]
            && Lookup(ps, "BienKS") == Some(plate)
            && Lookup(ps, "Xe") == Some(vehicleType)
            && Lookup(ps, "captcha") == Some(captcha)
            && Lookup(ps, "ipClient") == Some("9.9.9.91")
            && Lookup(ps, "cUrl") == Some("1")
  {
    var ps := FormParams(plate, vehicleType, captcha);
    var tail1, tail2, tail3, tail4 := ps[1..], ps[2..], ps[3..], ps[4..];
    assert tail1[1..] == tail2 && tail2[1..] == tail3 && tail3[1..] == tail4;
    assert Lookup(tail4, "cUrl") == Some("1");
    assert Lookup(tail3, "ipClient") == Some("9.9.9.91");
    assert Lookup(tail3, "cUrl") == Some("1");
    assert Lookup(tail2, "cUrl") == Some("1") && Lookup(tail2, "ipClient") == Some("9.9.9.91");
    assert Lookup(tail1, "cUrl") == Some("1") && Lookup(tail1, "ipClient") == Some("9.9.9.91");
    assert Lookup(tail2, "captcha") == Some(captcha);
  }

  /** The query `getViolationResults` fetches, concatenated without any escaping. */
  function ResultsUrl(vehicleType: string, plate: string): string {
    RESULTS_URL + "?&LoaiXe=" + vehicleType + "&BienKiemSoat=" + plate
  }

  /**
   * The URL splits back into its parts: it starts with the results page and the type
   * parameter and ends with the plate, verbatim.
   */
  lemma ResultsUrlParts(vehicleType: string, plate: string)
    ensures var url, k := ResultsUrl(vehicleType, plate), |RESULTS_URL| + 9;
            |url| == k + |vehicleType| + 14 + |plate|
            && url[..k] == RESULTS_URL + "?&LoaiXe="
            && url[k..k + |vehicleType|] == vehicleType
            && url[k + |vehicleType|..k + |vehicleType| + 14] == "&BienKiemSoat="
            && url[k + |vehicleType| + 14..] == plate
  {
    var a, b := RESULTS_URL + "?&LoaiXe=", "&BienKiemSoat=";
    var url := a + vehicleType + b + plate;
    assert |a| == |RESULTS_URL| + 9;
    assert url[..|a|] == a;
    assert url[|a|..|a| + |vehicleType|] == vehicleType;
    assert url[|a| + |vehicleType|..|a| + |vehicleType| + |b|] == b;
    assert url[|a| + |vehicleType| + |b|..] == plate;
  }

  /** Distinct lookups with types of one length, as validated types are, fetch distinct URLs. */
  lemma ResultsUrlInjective(t1: string, p1: string, t2: string, p2: string)
    requires |t1| == |t2|
    requires ResultsUrl(t1, p1) == ResultsUrl(t2, p2)
    ensures t1 == t2 && p1 == p2
  {
    ResultsUrlParts(t1, p1);
    ResultsUrlParts(t2, p2);
  }

  function MethodOf(r: Request): HttpMethod {
    if r.FormRequest? then Post else Get
  }

  /** The address each request is sent to. */
  function Url(r: Request): string {
    match r
    case CaptchaRequest(_) => BASE_URL + CAPTCHA_PATH
    case FormRequest(_, _, _, _) => BASE_URL + FORM_ENDPOINT
    case ResultsRequest(_, plate, vehicleType) => ResultsUrl(vehicleType, plate)
  }

  /** The form fields a request carries; only the submission has any. */
  function Params(r: Request): seq<Param> {
    if r.FormRequest? then FormParams(r.plate, r.vehicleType, r.captcha) else []
  }

  // ---------------------------------------------------------------------------
  // What the outside world answers
  // ---------------------------------------------------------------------------

  /** An exception raised by the HTTP client, the image decoder or the OCR engine. */
  datatype Thrown = IOException(message: string) | OtherException(message: string)

  /** A call that either returns a value or throws. */
  datatype Reply<+T> = Returned(value: T) | Raised(thrown: Thrown)

  /** What the OCR engine makes of a decoded captcha image. */
  datatype Ocr = Read(text: string) | OcrFailed(message: string)

  /** The answers to one attempt: captcha download and OCR, form post, the wait, results page. */
  datatype AttemptOracle = AttemptOracle(
    captcha: Reply<Ocr>, formResponse: Reply<string>, interrupted: bool, resultsPage: Reply<string>)

  /**
   * Library behaviour taken as given: `parse` is Jsoup's parse of a results page, and
   * `acceptsUri` says whether `URI.create`, which `new HttpGet(url)` calls, accepts a URL.
   */
  datatype Libraries = Libraries(parse: string -> Page, acceptsUri: string -> bool)

  /** The attempt made with retry counter `r` is answered by `net(r)`. */
  type Network = nat -> AttemptOracle

  /** The attempt's form submission came back as the rejection body. */
  predicate Rejects(o: AttemptOracle) {
    o.captcha.Returned? && o.captcha.value.Read? && o.formResponse == Returned(CAPTCHA_REJECTED)
  }

  /** The text `getCaptcha` hands to the form: the OCR output, trimmed. */
  function GetCaptcha(reply: Reply<Ocr>): (r: Reply<string>)
    ensures r.Returned? <==> reply.Returned? && reply.value.Read?
    ensures r.Returned? ==>
              var text, i := reply.value.text, LeadingSpaces(reply.value.text);
              Untrimmed(r.value) && i + |r.value| <= |text| && r.value == text[i..i + |r.value|]
              && (forall k :: 0 <= k < i ==> IsSpace(text[k]))
              && (forall k :: i + |r.value| <= k < |text| ==> IsSpace(text[k]))
    ensures reply.Raised? ==> r == Raised(reply.thrown)
    ensures reply.Returned? && reply.value.OcrFailed? ==>
              r == Raised(IOException(CAPTCHA_FAILED_PREFIX + reply.value.message))
  {
    match reply
    case Raised(e) => Raised(e)
    case Returned(OcrFailed(m)) => Raised(IOException(CAPTCHA_FAILED_PREFIX + m))
    case Returned(Read(text)) =>
      TrimSpec(text);
      Returned(Trim(text))
  }

  /** The message of the `IOException` `callAPI` throws for an exception caught in its body. */
  function Propagate(e: Thrown): string {
    match e
    case IOException(m) => m
    case OtherException(_) => FETCH_FAILED_MESSAGE
  }

  // ---------------------------------------------------------------------------
  // One attempt and the retry loop
  // ---------------------------------------------------------------------------

  datatype Verdict = CaptchaRejected | Settled(result: Result<seq<Violation>>)

  datatype Attempted = Attempted(verdict: Verdict, trace: seq<Request>)

  datatype Outcome = Outcome(result: Result<seq<Violation>>, trace: seq<Request>)

  /** The body of `callAPI` up to the retry decision, within the fresh session `session`. */
  function Attempt(o: AttemptOracle, session: nat, plate: string, vehicleType: string,
                   lib: Libraries): (a: Attempted)
    ensures a.verdict == CaptchaRejected <==> Rejects(o)
    ensures 1 <= |a.trace| <= 3 && a.trace[0] == CaptchaRequest(session)
    ensures forall k :: 0 <= k < |a.trace| ==> a.trace[k].session == session
    ensures |a.trace| >= 2 <==> o.captcha.Returned? && o.captcha.value.Read?
    ensures |a.trace| >= 2 ==>
              a.trace[1] == FormRequest(session, plate, vehicleType, Trim(o.captcha.value.text))
              && Url(a.trace[1]) == BASE_URL + FORM_ENDPOINT
              && Params(a.trace[1]) == FormParams(plate, vehicleType, Trim(o.captcha.value.text))
    ensures |a.trace| == 3 <==>
              |a.trace| >= 2 && o.formResponse.Returned? && !Rejects(o) && !o.interrupted
              && lib.acceptsUri(ResultsUrl(vehicleType, plate))
    ensures |a.trace| == 3 ==>
              a.trace[2] == ResultsRequest(session, plate, vehicleType)
              && Url(a.trace[2]) == ResultsUrl(vehicleType, plate) && Params(a.trace[2]) == []
    ensures a.verdict.Settled? && a.verdict.result.Success? ==>
              |a.trace| == 3 && o.resultsPage.Returned?
              && (forall v :: v in a.verdict.result.value ==> v.dateTime.Some?)
  {
    var fetch := CaptchaRequest(session);
    match GetCaptcha(o.captcha)
    case Raised(e) => Attempted(Settled(Failure(Propagate(e))), [fetch])
    case Returned(captcha) =>
      var sent := [fetch, FormRequest(session, plate, vehicleType, captcha)];
      match o.formResponse
      case Raised(e) => Attempted(Settled(Failure(Propagate(e))), sent)
      case Returned(body) =>
        if body == CAPTCHA_REJECTED then Attempted(CaptchaRejected, sent)
        else if o.interrupted then Attempted(Settled(Failure(INTERRUPTED_MESSAGE)), sent)
        else if !lib.acceptsUri(ResultsUrl(vehicleType, plate)) then
          // `new HttpGet(url)` throws `IllegalArgumentException` before any request is sent
          Attempted(Settled(Failure(FETCH_FAILED_MESSAGE)), sent)
        else
          var all := sent + [ResultsRequest(session, plate, vehicleType)];
          match o.resultsPage
          case Raised(e) => Attempted(Settled(Failure(Propagate(e))), all)
          case Returned(html) =>
            if Contains(html, NO_RESULTS_MARKER) then Attempted(Settled(Success([])), all)
            else
              ExtractAllStamped(lib.parse(html));
              Attempted(Settled(Success(Extract(lib.parse(html)))), all)
  }

  /**
   * `callAPI(plate, vehicleType, retries)`: one attempt in a fresh session; a rejected
   * captcha starts the whole attempt again with one retry fewer, until none is left.
   */
  function CallAPI(net: Network, lib: Libraries, plate: string, vehicleType: string,
                   retries: nat): (out: Outcome)
    ensures out.trace != [] && out.trace[0] == CaptchaRequest(retries)
    ensures forall k :: 0 <= k < |out.trace| ==> out.trace[k].session <= retries
    ensures out.result.Success? ==> forall v :: v in out.result.value ==> v.dateTime.Some?
    decreases retries
  {
    var a := Attempt(net(retries), retries, plate, vehicleType, lib);
    match a.verdict
    case Settled(r) => Outcome(r, a.trace)
    case CaptchaRejected =>
      if retries > 0 then
        var rest := CallAPI(net, lib, plate, vehicleType, retries - 1);
        Outcome(rest.result, a.trace + rest.trace)
      else
        Outcome(Failure(MAX_RETRIES_MESSAGE), a.trace)
  }

  /**
   * A results page carrying the no-results text yields the empty list without the
   * extractor being consulted; any other page yields exactly the extractor's records.
   */
  lemma ResultsPageDecides(o: AttemptOracle, session: nat, plate: string, vehicleType: string,
                           lib: Libraries)
    requires o.captcha.Returned? && o.captcha.value.Read?
    requires o.formResponse.Returned? && o.formResponse.value != CAPTCHA_REJECTED
    requires !o.interrupted && lib.acceptsUri(ResultsUrl(vehicleType, plate))
    requires o.resultsPage.Returned?
    ensures var a, html := Attempt(o, session, plate, vehicleType, lib), o.resultsPage.value;
            (Contains(html, NO_RESULTS_MARKER) ==> a.verdict == Settled(Success([])))
            && (!Contains(html, NO_RESULTS_MARKER) ==>
                  a.verdict == Settled(Success(Extract(lib.parse(html)))))
  {
  }

  /**
   * An exception in any step of an attempt ends the lookup: an `IOException` with its
   * own message, any other exception as the generic fetch failure.
   */
  lemma ExceptionsEndTheAttempt(o: AttemptOracle, session: nat, plate: string,
                                vehicleType: string, lib: Libraries, e: Thrown)
    requires o.captcha == Raised(e)
             || (o.captcha.Returned? && o.captcha.value.Read? && o.formResponse == Raised(e))
             || (o.captcha.Returned? && o.captcha.value.Read? && o.formResponse.Returned?
                 && o.formResponse.value != CAPTCHA_REJECTED && !o.interrupted
                 && lib.acceptsUri(ResultsUrl(vehicleType, plate)) && o.resultsPage == Raised(e))
    ensures var a := Attempt(o, session, plate, vehicleType, lib);
            (e.IOException? ==> a.verdict == Settled(Failure(e.message)))
            && (e.OtherException? ==> a.verdict == Settled(Failure(FETCH_FAILED_MESSAGE)))
  {
  }

  /**
   * An OCR failure ends the attempt, and with it the lookup, with the prefixed captcha
   * message: only the captcha download has been sent, and the form is never submitted.
   */
  lemma OcrFailureEndsTheAttempt(o: AttemptOracle, session: nat, plate: string,
                                 vehicleType: string, lib: Libraries, m: string)
    requires o.captcha == Returned(OcrFailed(m))
    ensures var a := Attempt(o, session, plate, vehicleType, lib);
            a.verdict == Settled(Failure(CAPTCHA_FAILED_PREFIX + m))
            && a.trace == [CaptchaRequest(session)]
  {
  }

  /**
   * A results URL that `URI.create` refuses (the plate goes in unescaped) ends the attempt
   * with the generic fetch failure, and the results page is never requested.
   */
  lemma MalformedResultsUrl(o: AttemptOracle, session: nat, plate: string, vehicleType: string,
                            lib: Libraries)
    requires o.captcha.Returned? && o.captcha.value.Read?
    requires o.formResponse.Returned? && o.formResponse.value != CAPTCHA_REJECTED
    requires !o.interrupted && !lib.acceptsUri(ResultsUrl(vehicleType, plate))
    ensures var a := Attempt(o, session, plate, vehicleType, lib);
            a.verdict == Settled(Failure(FETCH_FAILED_MESSAGE)) && |a.trace| == 2
            && forall k :: 0 <= k < |a.trace| ==> !a.trace[k].ResultsRequest?
  {
  }

  /**
   * An interruption of the wait after an accepted form fails the lookup with
   * "Request interrupted", and the results page is never requested.
   */
  lemma InterruptedWait(o: AttemptOracle, session: nat, plate: string, vehicleType: string,
                        lib: Libraries)
    requires o.captcha.Returned? && o.captcha.value.Read?
    requires o.formResponse.Returned? && o.formResponse.value != CAPTCHA_REJECTED
    requires o.interrupted
    ensures var a := Attempt(o, session, plate, vehicleType, lib);
            a.verdict == Settled(Failure(INTERRUPTED_MESSAGE)) && |a.trace| == 2
            && forall k :: 0 <= k < |a.trace| ==> !a.trace[k].ResultsRequest?
  {
  }

  /**
   * Along `trace` the session never comes back, and it changes exactly where a captcha
   * download starts a new attempt.
   */
  ghost predicate SessionPerAttempt(trace: seq<Request>) {
    forall i :: 0 < i < |trace| ==>
      trace[i].session <= trace[i - 1].session
      && (trace[i].CaptchaRequest? <==> trace[i].session < trace[i - 1].session)
  }

  /** Every attempt of a lookup runs in a session of its own. */
  lemma {:induction false} FreshSessionPerAttempt(net: Network, lib: Libraries,
                                                  plate: string, vehicleType: string,
                                                  retries: nat)
    ensures SessionPerAttempt(CallAPI(net, lib, plate, vehicleType, retries).trace)
    decreases retries
  {
    var a := Attempt(net(retries), retries, plate, vehicleType, lib);
    if Rejects(net(retries)) && retries > 0 {
      FreshSessionPerAttempt(net, lib, plate, vehicleType, retries - 1);
      CallAPIRetries(net, lib, plate, vehicleType, retries);
      SessionsJoin(RejectedAttempt(net(retries), retries, plate, vehicleType, lib),
                   CallAPI(net, lib, plate, vehicleType, retries - 1).trace);
    } else {
      AttemptSessions(a.trace);
      if Rejects(net(retries)) {
        assert CallAPI(net, lib, plate, vehicleType, retries).trace == a.trace;
      } else {
        CallAPISettles(net, lib, plate, vehicleType, retries);
      }
    }
  }

  /** The requests of one attempt share its session, and only the first is a captcha download. */
  lemma AttemptSessions(t: seq<Request>)
    requires 1 <= |t| <= 3 && t[0].CaptchaRequest?
    requires forall k :: 0 <= k < |t| ==> t[k].session == t[0].session
    requires |t| >= 2 ==> t[1].FormRequest?
    requires |t| == 3 ==> t[2].ResultsRequest?
    ensures SessionPerAttempt(t)
  {
  }

  /** A rejected attempt followed by a lookup with a lower session keeps sessions apart. */
  lemma SessionsJoin(head: seq<Request>, rest: seq<Request>)
    requires |head| == 2 && head[0].CaptchaRequest? && head[1].FormRequest?
    requires head[1].session == head[0].session
    requires rest != [] && rest[0].CaptchaRequest? && rest[0].session < head[1].session
    requires SessionPerAttempt(rest)
    ensures SessionPerAttempt(head + rest)
  {
    var t := head + rest;
    forall i | 0 < i < |t|
      ensures t[i].session <= t[i - 1].session
      ensures t[i].CaptchaRequest? <==> t[i].session < t[i - 1].session
    {
      if i >= 3 {
        assert t[i] == rest[i - 2] && t[i - 1] == rest[i - 3];
      }
    }
  }

  /** `getTrafficViolations`: validation first, then the lookup with `MAX_RETRIES` retries. */
  function GetTrafficViolations(net: Network, lib: Libraries, plate: string,
                                vehicleType: string): (out: Outcome)
    ensures ValidateVehicleType(vehicleType).Some? ==>
              out == Outcome(Failure(INVALID_TYPE_MESSAGE), [])
    ensures ValidateVehicleType(vehicleType).None? ==>
              out.trace != [] && out.trace[0] == CaptchaRequest(MAX_RETRIES)
    ensures out.result.Success? ==> forall v :: v in out.result.value ==> v.dateTime.Some?
    ensures SessionPerAttempt(out.trace)
  {
    match ValidateVehicleType(vehicleType)
    case Some(message) => Outcome(Failure(message), [])
    case None =>
      FreshSessionPerAttempt(net, lib, plate, vehicleType, MAX_RETRIES);
      CallAPI(net, lib, plate, vehicleType, MAX_RETRIES)
  }

  // ---------------------------------------------------------------------------
  // The retry count
  // ---------------------------------------------------------------------------

  /** The requests of the rejected attempts made with counters `from` down to `downTo + 1`. */
  function RejectedRun(net: Network, plate: string, vehicleType: string, from: nat, downTo: nat)
    : seq<Request>
    requires downTo <= from
    requires forall k :: downTo < k <= from ==> Rejects(net(k))
    decreases from
  {
    if from == downTo then []
    else
      assert Rejects(net(from));
      [CaptchaRequest(from),
       FormRequest(from, plate, vehicleType, Trim(net(from).captcha.value.text))]
      + RejectedRun(net, plate, vehicleType, from - 1, downTo)
  }

  /** How many form submissions a trace holds. */
  function Submissions(trace: seq<Request>): nat {
    if trace == [] then 0
    else (if MethodOf(trace[0]) == Post then 1 else 0) + Submissions(trace[1..])
  }

  /**
   * The first attempt whose captcha is not rejected decides the lookup: its result is
   * returned unchanged through all the enclosing calls, after one captcha download and
   * one submission for each rejected attempt before it.
   */
  lemma {:induction false} FirstAcceptedDecides(net: Network, lib: Libraries, plate: string,
                                                vehicleType: string, retries: nat, j: nat)
    requires j <= retries
    requires forall k :: j < k <= retries ==> Rejects(net(k))
    requires !Rejects(net(j))
    ensures var a := Attempt(net(j), j, plate, vehicleType, lib);
            var out := CallAPI(net, lib, plate, vehicleType, retries);
            out.result == a.verdict.result
            && out.trace == RejectedRun(net, plate, vehicleType, retries, j) + a.trace
    decreases retries
  {
    if retries > j {
      FirstAcceptedDecides(net, lib, plate, vehicleType, retries - 1, j);
      RejectedThenDecided(net, lib, plate, vehicleType, retries, j);
    } else {
      CallAPISettles(net, lib, plate, vehicleType, j);
      assert RejectedRun(net, plate, vehicleType, j, j) == [];
    }
  }

  /** The inductive step of `FirstAcceptedDecides`: one more rejected attempt in front. */
  lemma RejectedThenDecided(net: Network, lib: Libraries, plate: string,
                            vehicleType: string, retries: nat, j: nat)
    requires j < retries
    requires forall k :: j < k <= retries ==> Rejects(net(k))
    requires !Rejects(net(j))
    requires var a := Attempt(net(j), j, plate, vehicleType, lib);
             var rest := CallAPI(net, lib, plate, vehicleType, retries - 1);
             rest.result == a.verdict.result
             && rest.trace == RejectedRun(net, plate, vehicleType, retries - 1, j) + a.trace
    ensures var a := Attempt(net(j), j, plate, vehicleType, lib);
            var out := CallAPI(net, lib, plate, vehicleType, retries);
            out.result == a.verdict.result
            && out.trace == RejectedRun(net, plate, vehicleType, retries, j) + a.trace
  {
    var a := Attempt(net(j), j, plate, vehicleType, lib);
    var head := RejectedAttempt(net(retries), retries, plate, vehicleType, lib);
    var run := RejectedRun(net, plate, vehicleType, retries - 1, j);
    CallAPIRetries(net, lib, plate, vehicleType, retries);
    RejectedRunStep(net, lib, plate, vehicleType, retries, j);
    ConcatAssociates(head, run, a.trace);
  }

  lemma RejectedRunStep(net: Network, lib: Libraries, plate: string, vehicleType: string,
                        from: nat, downTo: nat)
    requires downTo < from
    requires forall k :: downTo < k <= from ==> Rejects(net(k))
    ensures RejectedRun(net, plate, vehicleType, from, downTo) ==
              RejectedAttempt(net(from), from, plate, vehicleType, lib)
              + RejectedRun(net, plate, vehicleType, from - 1, downTo)
  {
  }

  lemma ConcatAssociates(a: seq<Request>, b: seq<Request>, c: seq<Request>)
    ensures a + (b + c) == a + b + c
  {
  }

  /** A rejected captcha with retries left hands over to the call with one retry fewer. */
  lemma CallAPIRetries(net: Network, lib: Libraries, plate: string, vehicleType: string,
                       retries: nat)
    requires retries > 0 && Rejects(net(retries))
    ensures var rest := CallAPI(net, lib, plate, vehicleType, retries - 1);
            CallAPI(net, lib, plate, vehicleType, retries) ==
              Outcome(rest.result,
                      RejectedAttempt(net(retries), retries, plate, vehicleType, lib) + rest.trace)
  {
  }

  /** An attempt whose captcha is not rejected ends the lookup with that attempt's result. */
  lemma CallAPISettles(net: Network, lib: Libraries, plate: string, vehicleType: string,
                       retries: nat)
    requires !Rejects(net(retries))
    ensures var a := Attempt(net(retries), retries, plate, vehicleType, lib);
            CallAPI(net, lib, plate, vehicleType, retries) == Outcome(a.verdict.result, a.trace)
  {
  }

  /** The requests of an attempt whose captcha is rejected: one download, one submission. */
  function RejectedAttempt(o: AttemptOracle, session: nat, plate: string, vehicleType: string,
                           lib: Libraries): (trace: seq<Request>)
    requires Rejects(o)
    ensures trace == Attempt(o, session, plate, vehicleType, lib).trace
    ensures trace == [CaptchaRequest(session),
                      FormRequest(session, plate, vehicleType, Trim(o.captcha.value.text))]
  {
    Attempt(o, session, plate, vehicleType, lib).trace
  }

  /**
   * When every submission is rejected, the lookup makes exactly `retries + 1` attempts,
   * counters `retries` down to 0, each a captcha download and a submission, and then
   * fails with the maximum-retries message.
   */
  lemma {:induction false} AllRejected(net: Network, lib: Libraries, plate: string,
                                       vehicleType: string, retries: nat)
    requires forall k :: 0 <= k <= retries ==> Rejects(net(k))
    ensures var out := CallAPI(net, lib, plate, vehicleType, retries);
            out.result == Failure(MAX_RETRIES_MESSAGE)
            && |out.trace| == 2 * (retries + 1)
            && Submissions(out.trace) == retries + 1
    decreases retries
  {
    var head := RejectedAttempt(net(retries), retries, plate, vehicleType, lib);
    assert Submissions(head) == 1 by {
      assert head[1..][1..] == [];
      assert Submissions(head[1..]) == 1;
    }
    if retries > 0 {
      AllRejected(net, lib, plate, vehicleType, retries - 1);
      CallAPIRetries(net, lib, plate, vehicleType, retries);
      SubmissionsAppend(head, CallAPI(net, lib, plate, vehicleType, retries - 1).trace);
    }
  }

  lemma {:induction false} SubmissionsAppend(a: seq<Request>, b: seq<Request>)
    ensures Submissions(a + b) == Submissions(a) + Submissions(b)
    decreases |a|
  {
    if a == [] {
      assert a + b == b;
    } else {
      SubmissionsAppend(a[1..], b);
      assert (a + b)[1..] == a[1..] + b;
    }
  }

  /**
   * With a valid type and every captcha rejected, the lookup submits the form
   * `MAX_RETRIES + 1` = 6 times and fails with the maximum-retries message.
   */
  lemma SixAttempts(net: Network, lib: Libraries, plate: string, vehicleType: string)
    requires ValidateVehicleType(vehicleType).None?
    requires forall k :: 0 <= k <= MAX_RETRIES ==> Rejects(net(k))
    ensures var out := GetTrafficViolations(net, lib, plate, vehicleType);
            out.result == Failure(MAX_RETRIES_MESSAGE)
            && Submissions(out.trace) == 6 && |out.trace| == 12
  {
    AllRejected(net, lib, plate, vehicleType, MAX_RETRIES);
  }
}
