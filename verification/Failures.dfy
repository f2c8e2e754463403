/** Exceptions as the call boundary tells them apart: by the classes they are instances of. */
module Failures {
  import opened Domain

  datatype CallStatus =
    | SUCCESS | MALFORMED_OUTPUT | MODEL_ERROR | TIMEOUT | RETRY_EXHAUSTED | CONFIGURATION_ERROR

  /** The classes an `except` clause or `classify_exception` asks about. */
  datatype ExcClass =
    | Exception | Phase1Error | ConfigurationError | MalformedOutputError | ModelError | ModelTimeout
    | RetryExhaustedError

  /** Any exception object: its type's name, the classes it inherits from, its message, and the raw
      reply it may carry. */
  datatype Exc = Exc(name: string, classes: set<ExcClass>, detail: string, raw: Option<string>) {
    predicate Is(c: ExcClass) { c in classes }

    /** Inheritance is closed upwards. */
    predicate WellTyped() {
      && (Is(ModelTimeout) ==> Is(ModelError))
      && (Is(ConfigurationError) || Is(MalformedOutputError) || Is(ModelError) || Is(RetryExhaustedError) ==>
         Is(Phase1Error))
      && (Is(Phase1Error) ==> Is(Exception))
    }
  }

  /** What a call comes back with. */
  datatype Outcome = Text(text: string) | Raised(e: Exc)

  function Classify(e: Exc): CallStatus {
    if e.Is(MalformedOutputError) then MALFORMED_OUTPUT
    else if e.Is(RetryExhaustedError) then RETRY_EXHAUSTED
    else if e.Is(ModelTimeout) then TIMEOUT
    else if e.Is(ConfigurationError) then CONFIGURATION_ERROR
    else MODEL_ERROR
  }

  const PHASE1_CLASSES: set<ExcClass> := {Exception, Phase1Error}

  function MakePhase1Error(detail: string): Exc { Exc("Phase1Error", PHASE1_CLASSES, detail, None) }

  function MakeModelError(detail: string): Exc { Exc("ModelError", PHASE1_CLASSES + {ModelError}, detail, None) }

  function MakeModelTimeout(detail: string): Exc {
    Exc("ModelTimeout", PHASE1_CLASSES + {ModelError, ModelTimeout}, detail, None)
  }

  function MakeRetryExhausted(detail: string): Exc {
    Exc("RetryExhaustedError", PHASE1_CLASSES + {RetryExhaustedError}, detail, None)
  }

  /** Both a malformed output and a model error, on purpose. */
  function MakeInvariantViolation(detail: string, raw: string): Exc {
    Exc("ReasoningInvariantViolation", PHASE1_CLASSES + {MalformedOutputError, ModelError}, detail, Some(raw))
  }
}
