# PhatNguoiAPI lookup core in Dafny

PhatNguoiAPI looks up the traffic violations recorded for a Vietnamese licence plate.
It drives the public lookup form of www.csgt.vn:

1. download a captcha image and read it with OCR;
2. submit the plate, the vehicle type and the captcha text;
3. retry with a new captcha when the site answers `"404"`;
4. fetch the results page and turn its `.form-group` elements into violation records.

This project models that core and proves properties of the model.

## Modules

- `Wrappers` (`wrappers.dfy`): `Option`, where `None` is Java's `null`, and `Result`, whose failure carries the message of the `IOException` thrown.
- `Strings` (`strings.dfy`): the two `java.lang.String` operations the core relies on.
  - `Contains` is an occurrence of the substring at some index.
  - `Trim` strips the characters up to U+0020 from both ends.
  - Each comes with lemmas saying what it removes and keeps.
- `Violations` (`violations.dfy`): the Lombok bean `TrafficViolation`.
  - It is a class with four `Option<string>` fields, the two constructors, getters and setters.
  - A setter changes its own field and nothing else.
  - `Value()` gives the bean's contents as the datatype `Violation`.
- `Extractor` (`extractor.dfy`): `extractTrafficViolations`.
  - The parsed page is `Page`: either no `bodyPrint123` container, or the container's groups in document order. Each group has an optional label text and an optional value text.
  - `Extract` is the grouping state machine written as a fold (`Apply`, `ApplyAll`, `Finish`).
  - `Records` is an independent reference: one record per timestamp, made of the fields from that timestamp up to the next, with earlier fields joining the first record.
  - `ExtractIsRecords` proves the two agree.
  - The method `ExtractTrafficViolations` is the Java loop over `TrafficViolation` objects: one mutable current record, setters, and appends to a list. It is proved to produce fresh, distinct objects holding exactly `Extract(page)`.
- `Service` (`service.dfy`): `TrafficViolationService`.
  - The network and the OCR engine are an oracle, `Network = nat -> AttemptOracle`. `net(r)` answers the attempt that `callAPI` makes with retry counter `r`: the captcha download and OCR, the form response, whether the wait is interrupted, and the results page. Any of these can throw.
  - Library behaviour the model takes as given is the parameter `lib: Libraries`: `lib.parse` is Jsoup's parse of the results page, and `lib.acceptsUri` says whether `URI.create` accepts the results URL. `new HttpGet(url)` calls `URI.create`, and the plate goes into the URL unescaped, so a plate with, say, a space makes that step throw before the results request is sent.
  - Every operation returns its result together with the trace of requests it sent.
  - Each request is tagged with its session. A session is the cookie store and client that one `callAPI` call creates, and it is numbered by that call's retry counter.
  - The extractor enters the service through `Extract`. Functions cannot call the method, and the method is proved equal to `Extract`.

## Sessions

Each call of `callAPI` builds a new `BasicCookieStore` and client (`TrafficViolationService.java:59-63`), so a retry (line 71) never reuses a session. `FreshSessionPerAttempt` proves that every attempt runs in a session of its own.

## Model

The lemmas below are about these definitions: `Extractor.Classify`, `Extractor.Apply`, `Extractor.Finish` and `Extractor.Extract` (the extractor's loop as a fold), `Service.FormParams`, `Service.ResultsUrl`, `Service.Propagate` (the two `catch` clauses) and `Service.Rejects` (the "404" answer).

| member | source | states |
|---|---|---|
| Strings.TrimStartSpec | src/main/java/orimeister/phatnong/TrafficViolationExtractor.java:36-37 | stripping the leading side removes only characters up to U+0020, and stops at the first other character |
| Strings.TrimEndSpec | src/main/java/orimeister/phatnong/TrafficViolationExtractor.java:36-37 | stripping the trailing side removes only characters up to U+0020, and stops at the last other character |
| Strings.TrimSpec | src/main/java/orimeister/phatnong/TrafficViolationExtractor.java:36-37 | `trim` returns the contiguous slice of its input left after removing spaces from both ends; the result neither starts nor ends with a space character |
| Strings.TrimIdempotent | src/main/java/orimeister/phatnong/TrafficViolationExtractor.java:36-37 | trimming an already trimmed text changes nothing |
| Violations.TrafficViolation.Empty | src/main/java/orimeister/phatnong/TrafficViolation.java:11-16 | the no-argument constructor leaves all four fields null |
| Violations.TrafficViolation.constructor | src/main/java/orimeister/phatnong/TrafficViolation.java:10-16 | the all-arguments constructor sets dateTime, location, violationType and status in declaration order |
| Violations.TrafficViolation.SetDateTime | src/main/java/orimeister/phatnong/TrafficViolation.java:8-16 | the getter returns the value just set; the other three fields are unchanged |
| Violations.TrafficViolation.SetLocation | src/main/java/orimeister/phatnong/TrafficViolation.java:8-16 | the getter returns the value just set; the other three fields are unchanged |
| Violations.TrafficViolation.SetViolationType | src/main/java/orimeister/phatnong/TrafficViolation.java:8-16 | the getter returns the value just set; the other three fields are unchanged |
| Violations.TrafficViolation.SetStatus | src/main/java/orimeister/phatnong/TrafficViolation.java:8-16 | the getter returns the value just set; the other three fields are unchanged |
| Extractor.ClassifyPriority | src/main/java/orimeister/phatnong/TrafficViolationExtractor.java:40-52 | a label is a timestamp iff it contains the timestamp marker; a location iff it contains the location marker but not the timestamp one; likewise for type and status; it is ignored iff it contains none of the four |
| Extractor.ClassifyInContext | src/main/java/orimeister/phatnong/TrafficViolationExtractor.java:40-52 | because labels are matched by containment, text added around a recognized label never makes it unrecognized, and a timestamp label stays a timestamp |
| Extractor.ClassifyMarkers | src/main/java/orimeister/phatnong/TrafficViolationExtractor.java:40-50 | each marker phrase on its own is classified as its own kind, so no marker shadows another |
| Extractor.PlainGroup | src/main/java/orimeister/phatnong/TrafficViolationExtractor.java:29-37 | a group with both parts present and nothing to trim contributes its classified label and its value unchanged |
| Extractor.GroupStamps | src/main/java/orimeister/phatnong/TrafficViolationExtractor.java:29-45 | a group yields a timestamp exactly when both parts are present and its trimmed label contains the timestamp marker; the timestamp is the trimmed value |
| Extractor.ApplyAllShape | src/main/java/orimeister/phatnong/TrafficViolationExtractor.java:25-53 | after any prefix of the page, the emitted records and the open record are the ones the reference segmentation assigns to that prefix |
| Extractor.ExtractIsRecords | src/main/java/orimeister/phatnong/TrafficViolationExtractor.java:25-57 | the extractor returns one record per timestamp, made of the last values given between that timestamp and the next; fields before the first timestamp join the first record |
| Extractor.ExtractTimestamps | src/main/java/orimeister/phatnong/TrafficViolationExtractor.java:40-57 | the number of records equals the number of accepted timestamp groups, and the i-th record carries the i-th timestamp in document order |
| Extractor.ExtractAllStamped | src/main/java/orimeister/phatnong/TrafficViolationExtractor.java:41-57 | no emitted record has a null dateTime, whatever the page, with or without a container |
| Extractor.IgnoredGroup | src/main/java/orimeister/phatnong/TrafficViolationExtractor.java:29-52 | removing a group that lacks its label or its value, or whose label matches no marker, does not change the result |
| Extractor.LastWriteWins | src/main/java/orimeister/phatnong/TrafficViolationExtractor.java:46-51 | once a timestamp has been seen, a location, type or status group overwrites that field of the last record and leaves every other record and field as it was |
| Extractor.BoundaryOpensFreshRecord | src/main/java/orimeister/phatnong/TrafficViolationExtractor.java:40-45 | a timestamp group seen while the open record has a timestamp emits that record and opens one holding only the new timestamp, with null location, type and status |
| Extractor.SingleRecord | src/main/java/orimeister/phatnong/TrafficViolationExtractor.java:25-57 | with exactly one timestamp on the page, the result is a single record assembled from all the page's fields, including those before the timestamp |
| Extractor.TwoRecordExample | src/main/java/orimeister/phatnong/TrafficViolationExtractor.java:25-57 | the page time, location, type, status, time, status yields two records, the first with all four fields and the second with only its timestamp and status |
| Extractor.SetField | src/main/java/orimeister/phatnong/TrafficViolationExtractor.java:45-51 | the setter the label selects changes the record exactly as the state machine's update does |
| Extractor.VisitGroup | src/main/java/orimeister/phatnong/TrafficViolationExtractor.java:29-52 | one loop iteration moves the objects from the state before a group to the state after it; it either appends the current record and replaces it with a fresh one, or keeps both |
| Extractor.ExtractTrafficViolations | src/main/java/orimeister/phatnong/TrafficViolationExtractor.java:14-61 | no container gives the empty list; otherwise the method returns new, pairwise distinct objects whose values are exactly `Extract(page)`, in order |
| Service.ValidateVehicleType | src/main/java/orimeister/phatnong/TrafficViolationService.java:51-55 | the type passes iff it is exactly "1", "2" or "3"; otherwise the failure is the invalid-type message |
| Service.NearMissTypes | src/main/java/orimeister/phatnong/TrafficViolationService.java:51-55 | "", "12", " 1", "1 " and "4" are refused, and "2" passes |
| Service.BuildFormParams | src/main/java/orimeister/phatnong/TrafficViolationService.java:126-131 | the parameters appended one by one are BienKS, Xe, captcha, ipClient = 9.9.9.91 and cUrl = 1; plate, type and captcha read back under their names |
| Service.FormParamsLookup | src/main/java/orimeister/phatnong/TrafficViolationService.java:126-131 | the five names are distinct and in that order, and each reads back as the value put in |
| Service.ResultsUrlParts | src/main/java/orimeister/phatnong/TrafficViolationService.java:140 | the results URL is the results page, `?&LoaiXe=`, the type, `&BienKiemSoat=` and the plate, each verbatim, with no escaping |
| Service.ResultsUrlInjective | src/main/java/orimeister/phatnong/TrafficViolationService.java:140 | two lookups whose types have the same length fetch the same URL only if their types and plates are the same |
| Service.GetCaptcha | src/main/java/orimeister/phatnong/TrafficViolationService.java:99-117 | a read captcha is the OCR text trimmed: the slice left after removing the space characters before and after it, with no space at either end; an OCR error becomes an `IOException` prefixed "Failed to process captcha: "; download errors pass through |
| Service.Attempt | src/main/java/orimeister/phatnong/TrafficViolationService.java:59-96 | the attempt is rejected exactly when the form response is "404"; its requests share its session; it sends the captcha download, then the form with the trimmed captcha, then the results request only after a non-"404" response, an uninterrupted wait and a results URL that `URI.create` accepts; the form carries the five parameters and the results request goes to the results URL; a success has all three requests and only stamped records |
| Service.CallAPI | src/main/java/orimeister/phatnong/TrafficViolationService.java:57-97 | the lookup starts with a captcha download in the session of its own counter; no request's session number exceeds the counter; a success holds only records with a timestamp |
| Service.FirstAcceptedDecides | src/main/java/orimeister/phatnong/TrafficViolationService.java:67-84 | the first attempt not answered "404" decides the lookup; its result is returned unchanged through all enclosing calls, after a captcha download and a submission for each rejected attempt before it |
| Service.AllRejected | src/main/java/orimeister/phatnong/TrafficViolationService.java:67-74 | if every submission is answered "404", a call with counter r makes exactly r + 1 attempts (2(r + 1) requests) and fails with the maximum-retries message |
| Service.SixAttempts | src/main/java/orimeister/phatnong/TrafficViolationService.java:43-74 | a valid lookup whose captchas are all rejected submits the form MAX_RETRIES + 1 = 6 times, in 12 requests, and then fails with the maximum-retries message |
| Service.ResultsPageDecides | src/main/java/orimeister/phatnong/TrafficViolationService.java:84-90 | a results page containing "Không tìm thấy kết quả !" gives the empty list; any other page gives exactly the extractor's records |
| Service.ExceptionsEndTheAttempt | src/main/java/orimeister/phatnong/TrafficViolationService.java:91-96 | an exception in the captcha, form or results step ends the lookup: an `IOException` keeps its message, and any other exception becomes "Failed to fetch traffic violations" |
| Service.MalformedResultsUrl | src/main/java/orimeister/phatnong/TrafficViolationService.java:84-96 | a results URL that `URI.create` refuses ends the attempt with "Failed to fetch traffic violations", and the results page is never requested |
| Service.OcrFailureEndsTheAttempt | src/main/java/orimeister/phatnong/TrafficViolationService.java:111-116 | an OCR failure ends the attempt with "Failed to process captcha: " followed by the OCR message, which `callAPI` rethrows unchanged; only the captcha download has been sent and the form is never submitted |
| Service.InterruptedWait | src/main/java/orimeister/phatnong/TrafficViolationService.java:77-83 | an interruption of the wait after an accepted form fails the lookup with "Request interrupted", after exactly the captcha download and the form submission; the results page is never requested |
| Service.FreshSessionPerAttempt | src/main/java/orimeister/phatnong/TrafficViolationService.java:59-71 | along a lookup's requests no session returns once left; the session changes exactly where a captcha download starts a new attempt |
| Service.GetTrafficViolations | src/main/java/orimeister/phatnong/TrafficViolationService.java:46-49 | an invalid type fails with the invalid-type message before any request is sent; a valid one starts `callAPI` with MAX_RETRIES; a success holds only stamped records; sessions are one per attempt |

## Left out

- Jsoup parsing isn't modelled. That covers `Jsoup.parse`, `getElementById`, the CSS selection of `.form-group`, `label span` and `.col-md-9`, and the whitespace normalisation of `text()`. It is a foreign library. The model takes the parsed page as a `Page`, with the service's `parse` standing for Jsoup.
- Apache HttpClient isn't modelled: the cookie store's contents, the `User-Agent` and `Content-Type` headers, UTF-8 form encoding, and reading response bodies. These are network I/O. The model represents responses as oracle answers and requests as a trace of request values; `Url` and `Params` give their address and form fields.
- Closing the client at the end of the `try` block, and any exception raised by that close, are not modelled.
- Tesseract OCR and `ImageIO` decoding aren't modelled. They are foreign code. The oracle answers the captcha step with OCR text, an OCR failure, or an exception. When `ImageIO.read` returns `null`, what `doOCR(null)` does is decided inside the OCR library: it may throw an unchecked exception, which lines 93-95 turn into "Failed to fetch traffic violations", or a `TesseractException`, which lines 114-115 turn into "Failed to process captcha: …". The oracle allows both answers.
- `Thread.sleep(1500)` isn't modelled: there is no clock in the model. What can happen during the wait is kept: an interruption fails the lookup with "Request interrupted" (`Service.InterruptedWait`). The thread's interrupt flag is not modelled.
- The `System.out` and `System.err` logging, including the retry-count message, is left out because it has no effect on the result.
- `TrafficViolationController.java` is not part of this model. It is a Spring REST wrapper that turns an `IOException` into HTTP 500.
- Spring dependency injection and Lombok annotation processing are left out, beyond the constructors, getters and setters that the `TrafficViolation` class spells out.
- `null` inputs are left out; the model's strings are never null. A `null` vehicle type would throw a `NullPointerException` at `matches`. A `null` plate would pass through. The `BienKS` pair would hold `null`, and what the HTTP library's form encoder sends for it is up to the library. The results URL built at line 140 would end in the text "null".
- Java strings are UTF-16 code units, and the model's strings are sequences of Unicode characters. `contains` and `trim` agree on the two for well-formed text, since `trim` only removes characters up to U+0020.
- `Service.GetCaptcha`: an exception message that is `null` would print as "null" after the prefix. The model's messages are always present.
- `Service.CallAPI`: the retry counter is a `nat`. The Java `int` is never negative here, because the counter starts at `MAX_RETRIES` and recursion happens only when it is positive.
