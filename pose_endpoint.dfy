/**
 * The `/analyze-pose` handler of the Python backend: parse the height, save the upload,
 * run the pose model, compute the measurements, map every exception to an HTTP status,
 * and remove the upload on every exit from the `try`.
 *
 * The pose model is foreign code; what it reports is a parameter (`Detection`). Python's
 * `float(height)` is a parameter too: `None` when it raises `ValueError`.
 */
module PoseEndpoint {
  import opened Wrappers
  import opened Measurements

  /** The exception classes the handler tells apart. */
  datatype ExceptionKind = ValueErrorKind | IndexErrorKind | OtherErrorKind

  /** What running the pose model on the saved image gives. */
  datatype Detection =
    | NoPerson                               // no result, or no keypoints in the first result
    | Detected(points: seq<Point>)           // the keypoints of the first person
    | InferenceFailed(kind: ExceptionKind, message: string)

  /** An exception raised inside the `try` of the handler. */
  datatype Raised =
    | PersonNotFound                         // HTTPException(404) for an empty detection
    | PoseIncomplete                         // HTTPException(400) for fewer than 17 keypoints
    | CalcFailed(error: CalcError)           // a ValueError of calculate_measurements
    | InferenceError(kind: ExceptionKind, message: string)

  /** The error responses of the handler. */
  datatype Failure =
    | NotANumber                             // the height is not a float
    | CalculationError(cause: Raised)        // a ValueError or IndexError inside the try
    | InternalError(cause: Raised)           // any other exception inside the try

  datatype PoseReply = Analysed(m: Measurements) | HttpError(failure: Failure)

  /** `except (ValueError, IndexError)`: an HTTPException is neither. */
  predicate IsValueOrIndexError(e: Raised) {
    match e
    case PersonNotFound => false
    case PoseIncomplete => false
    case CalcFailed(_) => true
    case InferenceError(kind, _) => kind == ValueErrorKind || kind == IndexErrorKind
  }

  function Status(r: PoseReply): (code: nat)
    ensures code in {200, 400, 500}
  {
    match r
    case Analysed(_) => 200
    case HttpError(NotANumber) => 400
    case HttpError(CalculationError(_)) => 400
    case HttpError(InternalError(_)) => 500
  }

  /** `str(e)`: an HTTPException prints as "status: detail", a ValueError as its message. */
  function Message(e: Raised): string {
    match e
    case PersonNotFound => "404: Aucune personne détectée sur l'image."
    case PoseIncomplete => "400: Détection de pose incomplète."
    case CalcFailed(InvalidKeypoints) => "Données de points clés invalides ou incomplètes."
    case CalcFailed(ZeroPixelHeight) => "Hauteur en pixels nulle, impossible de calculer le ratio."
    case InferenceError(_, message) => message
  }

  /**
   * The `detail` of an error response: never empty, and for an exception raised inside
   * the `try` it ends with that exception's text.
   */
  function Detail(f: Failure): (d: string)
    ensures d != ""
    ensures !f.NotANumber? ==> |Message(f.cause)| < |d| && d[|d| - |Message(f.cause)|..] == Message(f.cause)
  {
    match f
    case NotANumber => "La taille doit être un nombre."
    case CalculationError(e) => "Erreur lors du calcul : " + Message(e)
    case InternalError(e) => "Erreur interne du serveur : " + Message(e)
  }

  /** What the body of the `try` raises, or the measurements it computes. */
  function TryOutcome(sqrt: real -> real, detection: Detection, heightCm: real): (r: Result<Measurements, Raised>)
    ensures r.Success? <==> detection.Detected? && Calculate(sqrt, Some(detection.points), heightCm).Computed?
    ensures r.Success? ==> r.value == Calculate(sqrt, Some(detection.points), heightCm).m
  {
    match detection
    case InferenceFailed(kind, message) => Error(InferenceError(kind, message))
    case NoPerson => Error(PersonNotFound)
    case Detected(k) =>
      if |k| < KeypointCount then Error(PoseIncomplete)
      else
        match Calculate(sqrt, Some(k), heightCm)
        case Computed(m) => Success(m)
        case Failed(e) => Error(CalcFailed(e))
  }

  /** The reply of `analyze_pose`, as a decision over its inputs. */
  function Analyze(sqrt: real -> real, height: Option<real>, detection: Detection): (r: PoseReply)
    ensures r.Analysed? <==>
      height.Some? && detection.Detected? && Calculate(sqrt, Some(detection.points), height.value).Computed?
    ensures r.Analysed? ==> r.m == Calculate(sqrt, Some(detection.points), height.value).m
  {
    if height.None? then HttpError(NotANumber)
    else
      match TryOutcome(sqrt, detection, height.value)
      case Success(m) => Analysed(m)
      case Error(e) => if IsValueOrIndexError(e) then HttpError(CalculationError(e)) else HttpError(InternalError(e))
  }

  /**
   * The status of every outcome. A non-numeric height is a 400; an empty detection and
   * an incomplete pose become 500 (their HTTPExceptions fall into `except Exception`);
   * a calculation error is a 400; a model failure is a 400 exactly when it is a
   * ValueError or an IndexError. No reply is ever a 404.
   */
  lemma StatusByCause(sqrt: real -> real, height: Option<real>, detection: Detection)
    ensures var r := Analyze(sqrt, height, detection);
      && Status(r) != 404
      && (height.None? ==> r == HttpError(NotANumber) && Status(r) == 400)
      && (height.Some? && detection.NoPerson? ==> r == HttpError(InternalError(PersonNotFound)) && Status(r) == 500)
      && (height.Some? && detection.Detected? && |detection.points| < KeypointCount ==>
            r == HttpError(InternalError(PoseIncomplete)) && Status(r) == 500)
      && (height.Some? && detection.Detected? && |detection.points| >= KeypointCount
          && PixelHeight(detection.points) == 0.0 ==>
            r == HttpError(CalculationError(CalcFailed(ZeroPixelHeight))) && Status(r) == 400)
      && (height.Some? && detection.InferenceFailed? ==>
            (Status(r) == 400 <==> detection.kind != OtherErrorKind) && Status(r) != 200)
  {
    if height.Some? && detection.Detected? && |detection.points| >= KeypointCount {
      var k := detection.points;
      assert Calculate(sqrt, Some(k), height.value) != Failed(InvalidKeypoints);
    }
  }

  /** The calculator's keypoint check can never fire here: the handler checks the count first. */
  lemma NoInvalidKeypointsReply(sqrt: real -> real, height: Option<real>, detection: Detection)
    ensures Analyze(sqrt, height, detection) != HttpError(CalculationError(CalcFailed(InvalidKeypoints)))
    ensures Analyze(sqrt, height, detection) != HttpError(InternalError(CalcFailed(InvalidKeypoints)))
  {
    if height.Some? && detection.Detected? && |detection.points| >= KeypointCount {
      assert Calculate(sqrt, Some(detection.points), height.value) != Failed(InvalidKeypoints);
    }
  }

  /** A step on the upload directory. */
  datatype FsOp = Wrote(path: string) | Removed(path: string)

  /** The upload directory: the files it holds, and a record of the handler's writes and removals. */
  class UploadDir {
    var files: set<string>
    ghost var log: seq<FsOp>

    constructor(files0: set<string>)
      ensures files == files0 && log == []
    {
      files := files0;
      log := [];
    }

    /**
     * `analyze_pose` for an upload saved under `path`. A non-numeric height is refused
     * before anything is written; otherwise the upload is written, and whatever the `try`
     * does, it is removed again before the reply.
     */
    method AnalyzePose(sqrt: real -> real, height: Option<real>, path: string, detection: Detection)
      returns (reply: PoseReply)
      modifies this
      ensures reply == Analyze(sqrt, height, detection)
      ensures height.None? ==> files == old(files) && log == old(log)
      ensures height.Some? ==> files == old(files) - {path} && log == old(log) + [Wrote(path), Removed(path)]
    {
      if height.None? {
        return HttpError(NotANumber);
      }
      var userHeight := height.value;
      files := files + {path};
      log := log + [Wrote(path)];

      // the try block
      var raised: Option<Raised> := None;
      var measurements: Measurements;
      match detection {
        case InferenceFailed(kind, message) =>
          raised := Some(InferenceError(kind, message));
        case NoPerson =>
          raised := Some(PersonNotFound);
        case Detected(k) =>
          if |k| < KeypointCount {
            raised := Some(PoseIncomplete);
          } else {
            var computed := Calculate(sqrt, Some(k), userHeight);
            if computed.Failed? {
              raised := Some(CalcFailed(computed.error));
            } else {
              measurements := computed.m;
            }
          }
      }

      // the except clauses
      if raised.Some? {
        if IsValueOrIndexError(raised.value) {
          reply := HttpError(CalculationError(raised.value));
        } else {
          reply := HttpError(InternalError(raised.value));
        }
      } else {
        reply := Analysed(measurements);
      }

      // the finally clause
      if path in files {
        files := files - {path};
        log := log + [Removed(path)];
      }
    }
  }
}
