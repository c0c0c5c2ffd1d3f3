# FashionistAI core, modelled in Dafny

FashionistAI estimates body measurements from a photo. A phone scans a QR code shown on a
PC, joins a capture session over Socket.IO and sends a photo. The TypeScript server
(`src/server.ts`, configured by `src/config.ts`) forwards the photo and the stated height
to a Python service (`backend/main.py`). That service runs a pose model and turns the
17 detected keypoints into six measurements.

This project models the three pieces of that pipeline that make decisions. It proves what
they promise.

- **Measurement calculator** (`measurements.dfy`, module `Measurements`):
  `get_pixel_distance` and `calculate_measurements` over exact reals.
  - The two `ValueError`s are modelled: fewer than 17 keypoints, and a zero shoulder-to-ankle span.
  - The calibration ratio maps that span to 80% of the stated height.
  - There are two width conversions, two averaged limb chains and two circumference estimates.
  - Proved: the ratio identity, non-negativity, left/right mirror invariance,
    proportionality to and monotonicity in the height, and invariance under a uniform
    zoom of the photo.
- **The `/analyze-pose` handler** (`pose_endpoint.dfy`, module `PoseEndpoint`):
  - The reply is a decision over the height and what the pose model reported, with the
    status of every outcome.
  - The class `UploadDir` holds the upload directory. The method `AnalyzePose` writes the
    upload and always removes it again after the `try`.
- **Session registry** (`session_registry.dfy`, module `SessionRegistry`):
  - The `sessions` and `socketToSession` tables are the two `map` fields of the class
    `Registry`.
  - There is one method per route or socket handler. Each is proved against a transition
    function over the tables.
  - Proved: each handler's effect, and that every run of events keeps the tables consistent.
- **The `/api/analyze-pose` proxy route** (`analyze_proxy.dfy`, module `AnalyzeProxy`):
  input validation, the upload's deletion, and the mapping of a failed call to 504, 502 or 500.
- **Configuration** (`net_config.dfy`, module `NetConfig`):
  - `getNetworkIP` is a nested loop proved to return the first external IPv4 address, or
    the fallback.
  - The `config` object's environment-or-default choices.
- **JavaScript helpers** (`js_values.dfy`, module `JsValues`): the language semantics the
  TypeScript code relies on.
  - `||` on strings, `String.prototype.includes`, `parseInt(…, 10)` and number-to-string.
  - Proved: `parseInt` reads back what number-to-string wrote.
- `wrappers.dfy` (module `Wrappers`) holds `Option` and `Result`.

Parameters stand in for what the model cannot see:
- `sqrt` is a function parameter, constrained by `IsSqrt` where a proof needs it.
- The pose model's output is a `Detection`. `float(height)` is an `Option<real>`.
- The interface table and the environment are values.
- Timestamps, generated session ids, the QR image and the result of the HTTP call to the
  Python service are values too.

The Python handler follows the code, not the intended design. The 404 ("no person") and
the 400 ("incomplete pose") are raised inside the `try`. They are neither `ValueError`
nor `IndexError`, so `except Exception` turns them into 500s whose detail starts with
"Erreur interne du serveur : 404: …". `PoseEndpoint.StatusByCause` states this, including
that no reply is ever a 404. The TypeScript proxy then turns every Python error reply,
400s included, into a 500 carrying the same detail (`AnalyzeProxy.PythonErrorsBecome500`).

## Model

| member | source | states |
|---|---|---|
| Measurements.PixelDistanceIsRoot | backend/main.py:31-33 | `get_pixel_distance` (`PixelDistance`) is the non-negative number whose square is the squared Euclidean distance |
| Measurements.DistanceNonNegative | backend/main.py:31-33 | the pixel distance is never negative |
| Measurements.DistanceSymmetric | backend/main.py:31-33 | the distance from p to q equals the distance from q to p |
| Measurements.DistanceToSelfIsZero | backend/main.py:31-33 | a point is at distance 0 from itself |
| Measurements.DistanceScales | backend/main.py:31-33 | zooming both points by s > 0 multiplies their distance by s |
| Measurements.PixelHeight | backend/main.py:50-52 | the shoulder-to-ankle span is non-negative, and zero exactly when the two midpoint heights coincide |
| Measurements.CalibrationRatio | backend/main.py:55-60 | ratio × pixel span = 0.80 × height, and the ratio is non-negative for a non-negative height |
| Measurements.Calculate | backend/main.py:35-95 | fails with the keypoint error iff the keypoints are missing or fewer than 17; fails with the zero-span error iff the span is 0; otherwise chest = shoulder width × π × 0.9 and waist circumference = waist width × π |
| Measurements.CalibratedLengths | backend/main.py:50-79 | on success, each width or length × pixel span = 0.80 × height × its pixel length (the mean of both chains for arm and leg) |
| Measurements.MeasurementsNonNegative | backend/main.py:64-86 | for a non-negative height, all six values are non-negative |
| Measurements.MirrorInvariant | backend/main.py:64-79 | swapping every left keypoint with its right counterpart gives the same result, errors included |
| Measurements.RatioLinearInHeight | backend/main.py:55-60 | the ratio for height h is h times the ratio for height 1 |
| Measurements.ProportionalToHeight | backend/main.py:55-86 | success does not depend on the height, and every value for height h is h times the value for height 1 |
| Measurements.MonotoneInHeight | backend/main.py:55-86 | a taller height never gives a smaller value, for heights of any sign |
| Measurements.PixelHeightScales | backend/main.py:50-52 | zooming the photo by s > 0 multiplies the pixel span by s |
| Measurements.ChainScales | backend/main.py:72-79 | zooming multiplies a two-segment limb chain by s |
| Measurements.WidthsScale | backend/main.py:64-69 | zooming multiplies the shoulder and hip pixel widths by s |
| Measurements.ArmScales | backend/main.py:71-74 | zooming multiplies the mean arm chain by s |
| Measurements.LegScales | backend/main.py:76-79 | zooming multiplies the mean leg chain by s |
| Measurements.RatioScales | backend/main.py:50-60 | zooming keeps the span non-zero and divides the ratio by s |
| Measurements.StretchedComputed | backend/main.py:50-86 | a successful calculation gives the same measurements on the zoomed photo |
| Measurements.ScaleInvariant | backend/main.py:35-95 | the result, errors included, does not depend on a uniform zoom of the photo |
| Measurements.WorkedExample | backend/main.py:50-86 | a 200 px span and 180 cm give 0.72 cm/px, 28.8 cm shoulders and 21.6 cm waist for 40 px and 30 px widths |
| PoseEndpoint.Status | backend/main.py:100-136 | every reply of the handler is 200, 400 or 500 |
| PoseEndpoint.Detail | backend/main.py:103-130 | every error reply carries a non-empty detail, and for an exception raised in the `try` the detail ends with that exception's text |
| PoseEndpoint.TryOutcome | backend/main.py:113-125 | the `try` succeeds exactly when a person was detected and the calculator succeeds, and then yields its measurements |
| PoseEndpoint.Analyze | backend/main.py:99-136 | the reply carries measurements exactly when the height is numeric, a person was detected and the calculator succeeds, and then they are the calculator's |
| PoseEndpoint.StatusByCause | backend/main.py:100-130 | non-numeric height: 400; no person and incomplete pose: 500; zero span: 400; a model failure is 400 iff it is a ValueError or IndexError; never 404 |
| PoseEndpoint.NoInvalidKeypointsReply | backend/main.py:121-125 | the calculator's keypoint error never reaches a reply, since the handler checks the count first |
| PoseEndpoint.UploadDir.AnalyzePose | backend/main.py:99-136 | replies as `Analyze`; a non-numeric height writes nothing; otherwise the upload is written and then removed, and no other file changes |
| SessionRegistry.GenerateQrEffect | src/server.ts:91-98 | a waiting session owned by its own id is inserted only when the id is absent; existing sessions and the socket table are untouched |
| SessionRegistry.PcJoinEffect | src/server.ts:364-378 | an absent id gets a waiting session owned by the socket; an existing one changes only its PC socket; the socket maps to the session; other sessions are untouched |
| SessionRegistry.MobileJoinEffect | src/server.ts:387-395 | an unknown session changes nothing; a known one gets the socket as mobile and becomes connected, keeping its PC and creation time, and the socket is mapped |
| SessionRegistry.DisconnectEffect | src/server.ts:432-449 | a mapped socket is unmapped; a departing mobile that is not the PC clears the mobile and the session waits; a departing PC, or a socket that is neither the PC nor the current mobile, leaves the session as it is; no session is removed |
| SessionRegistry.TransitionsPreserveValid | src/server.ts:59-68 | every handler keeps each mapped socket pointing at an existing session, and keeps "connected iff a mobile is attached" |
| SessionRegistry.RunPreservesValid | src/server.ts:357-450 | along any sequence of events the tables stay consistent and the set of sessions only grows |
| SessionRegistry.ReachableValid | src/server.ts:67-68 | every state reachable from the empty tables is consistent |
| SessionRegistry.QrPointsAtLiveSession | src/server.ts:87-100 | after generate-qr, the mobile page for the returned session id is served |
| SessionRegistry.MobileCaptureRefusal | src/server.ts:202-207 | the mobile page is a 404 exactly when the query is missing, empty or names no session |
| SessionRegistry.TriggerNeedsConnectedMobile | src/server.ts:418-429 | in a consistent registry the capture request reaches the session's mobile exactly when the session is connected; otherwise the sender gets "Mobile not connected" |
| SessionRegistry.MobileJoinNotifies | src/server.ts:398-400 | a join notifies the session's PC and then the mobile; an unknown session gets only "Session not found" |
| SessionRegistry.Registry.constructor | src/server.ts:67-68 | both tables start empty, and so consistent (`Consistent`, which is `Valid` of the tables) |
| SessionRegistry.Registry.GenerateQr | src/server.ts:85-126 | the tables follow `AfterGenerateQr` for the requested id, or for the generated id when none is given, and stay consistent; the reply carries that id, the QR image and the mobile URL, or is the 500 reply when the QR library fails |
| SessionRegistry.Registry.MobileCapturePage | src/server.ts:202-207 | the reply follows `MobileCapture` and changes nothing |
| SessionRegistry.Registry.PcJoin | src/server.ts:361-381 | the tables follow `AfterPcJoin` and stay consistent |
| SessionRegistry.Registry.MobileJoin | src/server.ts:384-403 | the tables follow `AfterMobileJoin` and stay consistent, and the emitted events are `MobileJoinEmissions` |
| SessionRegistry.Registry.PhotoCaptured | src/server.ts:406-415 | the image goes to the session's PC, and nothing is sent for an unknown session |
| SessionRegistry.Registry.TriggerCapture | src/server.ts:418-429 | the emission follows `TriggerEmission` and changes nothing |
| SessionRegistry.Registry.Disconnect | src/server.ts:432-449 | the tables follow `AfterDisconnect` and stay consistent |
| AnalyzeProxy.HandleAnalyze | src/server.ts:129-199 | with a file and a non-empty height, a failed forward is answered by the `catch` block (`ErrorReply`) and the upload is deleted; every error reply carries a non-empty detail; the upload can be left on disk only when a file was uploaded |
| AnalyzeProxy.SuccessForwardsReply | src/server.ts:131-169 | the route replies with the service's data exactly when a file was uploaded, the height is non-empty and the service replied with that data |
| AnalyzeProxy.ErrorReply | src/server.ts:170-197 | a failed forward is always an error reply with status 500, 502 or 504 and a non-empty detail |
| AnalyzeProxy.ValidationPrecedesForwarding | src/server.ts:131-145 | without a file, 400 "No image file provided"; else with a falsy height, 400 "Height parameter is required"; neither depends on the Python service |
| AnalyzeProxy.ErrorStatusPriority | src/server.ts:180-197 | 504 iff a timeout; 502 iff refused and not a timeout; 500 otherwise, and always for a non-axios error |
| AnalyzeProxy.TimeoutWinsOverRefused | src/server.ts:180-192 | a refused connection whose message mentions "timeout" is answered 504 |
| AnalyzeProxy.OtherErrorsCarryDetail | src/server.ts:194-197 | a 500 carries the service's detail, else the error message, else "Error analyzing image" |
| AnalyzeProxy.StatusesAnswered | src/server.ts:129-199 | every error status of the route is 400, 500, 502 or 504 |
| AnalyzeProxy.UploadLeftOnlyWithoutHeight | src/server.ts:140-178 | the temporary upload stays on disk exactly when a file came with a missing or empty height |
| AnalyzeProxy.PythonErrorsBecome500 | src/server.ts:194-197 | any error reply of the Python handler (a 400 or a 500) reaches the browser as a 500 with the same detail |
| NetConfig.FirstInIsFirst | src/config.ts:13-18 | within one interface, nothing is found iff no entry qualifies; otherwise the address of the first qualifying entry is found |
| NetConfig.NoExternalIffNoneQualifies | src/config.ts:9-20 | the search finds nothing exactly when no entry of any defined interface is external IPv4 |
| NetConfig.ExternalIsFirst | src/config.ts:9-19 | a found address belongs to a qualifying entry, and no qualifying entry precedes it in interface order and then list order |
| NetConfig.NetworkIPChoice | src/config.ts:7-21 | the fallback "192.168.1.21" exactly when nothing qualifies, otherwise the first qualifying address |
| NetConfig.GetNetworkIP | src/config.ts:7-21 | the nested loop, which skips undefined interfaces, returns `NetworkIP` |
| NetConfig.BuildConfig | src/config.ts:23-69 | a non-empty `PYTHON_SERVICE_URL`, `NETWORK_IP`, `FRONTEND_URL` or `NODE_ENV` is used as is; an unset or empty one gives its literal default (the interface-derived address for `NETWORK_IP`); the port is `parseInt` of `PORT` or of "8000"; fixed host, Python host and port; development iff `NODE_ENV` is not "production" |
| NetConfig.EmptyMeansUnset | src/config.ts:25-39 | an empty variable gives the same settings as an unset one |
| NetConfig.DefaultPortIs8000 | src/config.ts:25 | the default port string parses to 8000 |
| NetConfig.Defaults | src/config.ts:25-68 | with nothing set: port 8000, the literal URLs, the interface-derived address, development mode |
| NetConfig.PortFromEnv | src/config.ts:25 | a `PORT` spelling an integer, optionally followed by a non-digit, gives that port |
| JsValues.Or | src/config.ts:25-39 | `v \|\| fallback` is the value when it is a non-empty string, else the fallback |
| JsValues.DecimalRoundTrip | src/server.ts:100 | the decimal spelling of a natural number reads back as that number |
| JsValues.NumberToString | src/server.ts:100 | NaN spells "NaN"; a non-negative integer spells at least one digit and no leading zero (so 0 is "0"); a negative one spells "-" followed by the digits of its magnitude, again without a leading zero |
| JsValues.TrimStartDropsOnlySpace | src/config.ts:25 | the leading-space trim of `parseInt` keeps a suffix of the input and drops only white space |
| JsValues.ParseInt | src/config.ts:25 | NaN exactly when, after leading white space and one sign, no digit follows |
| JsValues.ParseIntReadsNumberToString | src/config.ts:25 | parsing the spelling of an integer, followed by anything not a digit, gives the integer back |

## Left out

- Floating point is not modelled. All arithmetic is exact over reals, and `np.pi` is the
  shortest decimal that reads back as the double nearest to pi. `np.sqrt` is a function parameter; the
  proofs that need it rely only on its being a square root.
- Measurements.Calculate: `round(…, 1)` of the six values is not modelled. The model
  returns and reasons about the values before rounding, because exact rounding over reals
  would add nothing to the properties stated.
- Non-finite inputs (NaN or infinite keypoints or height) are not modelled. They need IEEE
  semantics.
- YOLO pose inference and keypoint extraction are foreign code. Their result is the
  `Detection` parameter, including the exception they may raise.
- Python's `float(height)` is a parameter (`None` when it raises). Its string grammar is
  not modelled.
- The upload's file name (`uuid4` plus extension) is a parameter.
  - PoseEndpoint.UploadDir.AnalyzePose: the bytes written are not modelled, only which
    files exist.
  - A failing write or `os.remove` is not modelled.
- PoseEndpoint.Message: the text of an `HTTPException` is taken to be "status: detail", as in
  Starlette's `str()`.
- Socket.IO delivery, rooms (`socket.join`) and the connection event are not modelled.
  Emitted events are returned as values.
- Handlers run one at a time here. The async interleaving of handlers is not modelled.
- `Date.now()`, `uuidv4()` and `QRCode.toDataURL` are parameters. A failing QR library is
  the `None` image.
- `pc-join` with a payload that is not an object is not modelled; each handler takes the
  session id as a string. `frontend/src/components/QRCodeDisplay.tsx` emits the bare id.
- A repeated query parameter (an array) is not modelled. This covers `session` in
  `GET /mobile-capture` and `sessionId` in `GET /api/generate-qr`; both are cast to a string.
- The success reply's fixed `"message"` text ("Analyse réussie") is not modelled; `Analysed`
  carries only the measurements.
- The HTML of the capture page is not modelled; the reply only names the session.
- The health route, server start-up and shutdown are not modelled.
- Multer storage and its size limit are not modelled.
- The CORS, Socket.IO and upload literals of `config` are not modelled. Nothing in the
  core decides on them.
- The HTTP call to the Python service (axios, form-data, the 5 s timeout) is not modelled.
  Its result is the `Upstream` parameter.
  - A failing `fs.unlinkSync` is not modelled.
  - Whether `req.file` survives is only tracked as `uploadLeft`.
- `os.networkInterfaces()` and `dotenv` are not modelled. The interface table and the
  environment are parameters.
- Session records are updated in place in the source (`session.pcSocketId = …`). Here they
  are immutable values that the methods store back into the map. No other code holds a
  reference to a record, so nothing observable is lost.
- The `capturing` and `analyzing` statuses are declared in the source but never set. They
  are kept in the datatype, and `SessionRegistry.SessionValid` records that they never occur.
- JsValues.ParseInt: only the decimal form that `parseInt(…, 10)` reads is modelled.
  - Leading white space is the ECMAScript WhiteSpace and LineTerminator set, and one
    leading "+" or "-" is accepted.
  - "-0" reads as 0, not as JavaScript's negative zero.
  - Integers are unbounded, so JavaScript's loss of precision above 2^53 is not modelled.
- JsValues.NumberToString: only integers and NaN are spelled, and always in plain decimal.
  JavaScript writes integers of 1e21 or more in exponent form ("1e+21"), which is not
  modelled. The port is the only number the model converts.
