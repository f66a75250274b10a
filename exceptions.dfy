/** The exception classes of the application (src/exceptions/__init__.py)
    together with the two built-in Python classes the core raises or catches.
    Only the class hierarchy matters to the core: `except C` catches every
    exception whose kind is a subclass of `C`. */
module Exceptions {
  import opened Wrappers

  datatype ErrorKind =
    | Exception                 // Python's built-in base class
    | ValueError                // raised by list.index on a missing value
    | SlideGeneratorError
    | ImageProcessingError
    | OcrError
    | ImagePreprocessingError
    | StructureAnalysisError
    | LlmProcessingError
    | LlmConnectionError
    | LlmResponseError
    | ContentAnalysisError
    | CircuitBreakerOpenError   // declared in src/utils/error_handling.py

  /** A raised exception: its class and its message (`str(e)`). */
  datatype Error = Error(kind: ErrorKind, message: string)

  /** The direct base class of each kind. */
  function Parent(k: ErrorKind): Option<ErrorKind> {
    match k
    case Exception => None
    case ValueError => Some(Exception)
    case SlideGeneratorError => Some(Exception)
    case ImageProcessingError => Some(SlideGeneratorError)
    case OcrError => Some(ImageProcessingError)
    case ImagePreprocessingError => Some(ImageProcessingError)
    case StructureAnalysisError => Some(ImageProcessingError)
    case LlmProcessingError => Some(SlideGeneratorError)
    case LlmConnectionError => Some(LlmProcessingError)
    case LlmResponseError => Some(LlmProcessingError)
    case ContentAnalysisError => Some(LlmProcessingError)
    case CircuitBreakerOpenError => Some(SlideGeneratorError)
  }

  /** Number of base classes above `k`. */
  function Depth(k: ErrorKind): nat {
    match k
    case Exception => 0
    case ValueError | SlideGeneratorError => 1
    case ImageProcessingError | LlmProcessingError | CircuitBreakerOpenError => 2
    case _ => 3
  }

  /** `issubclass(k, c)`. */
  predicate IsA(k: ErrorKind, c: ErrorKind)
    decreases Depth(k)
  {
    k == c || (Parent(k).Some? && Depth(Parent(k).value) < Depth(k) && IsA(Parent(k).value, c))
  }

  /** `except (c1, c2, ...)` catches `k`. */
  predicate Catches(listed: set<ErrorKind>, k: ErrorKind) {
    exists c :: c in listed && IsA(k, c)
  }

  /** Every exception of the model is an `Exception`, so the default
      `exceptions=(Exception,)` of `retry` catches all of them. */
  lemma {:induction false} EverythingIsAnException(k: ErrorKind)
    ensures IsA(k, Exception)
    decreases Depth(k)
  {
    if k != Exception {
      EverythingIsAnException(Parent(k).value);
    }
  }
}
