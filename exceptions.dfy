/** The gateway's error taxonomy: `GeminiAPIError` and its five subclasses. Each subclass
    fixes its HTTP status code and keeps one extra field; every one of them is a
    `GatewayError`, which is how a handler catching the base class also catches them. */
module Exceptions {
  import opened Wrappers

  /** `Dict[str, Any]` of extra error details (values abstracted to strings). */
  type Details = map<string, string>

  datatype GatewayError =
    | GeminiAPIError(message: string, status: int, details: Details)
    | RateLimitError(message: string, retryAfter: Option<int>, details: Details)
    | InvalidInputError(message: string, field: Option<string>, details: Details)
    | FileProcessingError(message: string, fileType: Option<string>, details: Details)
    | ModelNotFoundError(message: string, modelName: Option<string>, details: Details)
    | AuthenticationError(message: string, details: Details)
  {
    /** The `status_code` attribute: chosen by the caller for the base class and fixed
        by each subclass's constructor. */
    function StatusCode(): int {
      match this
      case GeminiAPIError(_, s, _) => s
      case RateLimitError(_, _, _) => 429
      case InvalidInputError(_, _, _) => 400
      case FileProcessingError(_, _, _) => 400
      case ModelNotFoundError(_, _, _) => 404
      case AuthenticationError(_, _) => 401
    }
  }

  /** `details or {}`: a missing or empty dictionary both become `{}`. */
  function DetailsOrEmpty(details: Option<Details>): (d: Details)
    ensures details.Some? ==> d == details.value
    ensures details.None? ==> d == map[]
  {
    if details.Some? && details.value != map[] then details.value else map[]
  }

  /** `GeminiAPIError(message, status_code=503, details=None)`. */
  function NewGeminiAPIError(message: string, statusCode: int := 503, details: Option<Details> := None): (e: GatewayError)
    ensures e.GeminiAPIError? && e.StatusCode() == statusCode
    ensures e.message == message && e.details == DetailsOrEmpty(details)
  {
    GeminiAPIError(message, statusCode, DetailsOrEmpty(details))
  }

  /** `RateLimitError(message="Rate limit exceeded", retry_after=None, details=None)`. */
  function NewRateLimitError(message: string := "Rate limit exceeded", retryAfter: Option<int> := None,
                             details: Option<Details> := None): (e: GatewayError)
    ensures e.RateLimitError? && e.StatusCode() == 429
    ensures e.message == message && e.retryAfter == retryAfter && e.details == DetailsOrEmpty(details)
  {
    RateLimitError(message, retryAfter, DetailsOrEmpty(details))
  }

  /** `InvalidInputError(message="Invalid input provided", field=None, details=None)`. */
  function NewInvalidInputError(message: string := "Invalid input provided", field: Option<string> := None,
                                details: Option<Details> := None): (e: GatewayError)
    ensures e.InvalidInputError? && e.StatusCode() == 400
    ensures e.message == message && e.field == field && e.details == DetailsOrEmpty(details)
  {
    InvalidInputError(message, field, DetailsOrEmpty(details))
  }

  /** `FileProcessingError(message="File processing failed", file_type=None, details=None)`. */
  function NewFileProcessingError(message: string := "File processing failed", fileType: Option<string> := None,
                                  details: Option<Details> := None): (e: GatewayError)
    ensures e.FileProcessingError? && e.StatusCode() == 400
    ensures e.message == message && e.fileType == fileType && e.details == DetailsOrEmpty(details)
  {
    FileProcessingError(message, fileType, DetailsOrEmpty(details))
  }

  /** `ModelNotFoundError(message="Model not found", model_name=None, details=None)`. */
  function NewModelNotFoundError(message: string := "Model not found", modelName: Option<string> := None,
                                 details: Option<Details> := None): (e: GatewayError)
    ensures e.ModelNotFoundError? && e.StatusCode() == 404
    ensures e.message == message && e.modelName == modelName && e.details == DetailsOrEmpty(details)
  {
    ModelNotFoundError(message, modelName, DetailsOrEmpty(details))
  }

  /** `AuthenticationError(message="Authentication failed", details=None)`. */
  function NewAuthenticationError(message: string := "Authentication failed", details: Option<Details> := None)
    : (e: GatewayError)
    ensures e.AuthenticationError? && e.StatusCode() == 401
    ensures e.message == message && e.details == DetailsOrEmpty(details)
  {
    AuthenticationError(message, DetailsOrEmpty(details))
  }

  /** The status code and the extra field each constructor records, for every input. */
  lemma ConstructorsKeepFields(message: string, status: int, retryAfter: Option<int>, name: Option<string>,
                               details: Option<Details>)
    ensures NewGeminiAPIError(message).StatusCode() == 503
    ensures NewGeminiAPIError(message, status, details).StatusCode() == status
    ensures NewGeminiAPIError(message).details == map[]
    ensures var e := NewRateLimitError(message, retryAfter, details);
            e.StatusCode() == 429 && e.retryAfter == retryAfter && e.message == message
    ensures var e := NewInvalidInputError(message, name, details);
            e.StatusCode() == 400 && e.field == name
    ensures var e := NewFileProcessingError(message, name, details);
            e.StatusCode() == 400 && e.fileType == name
    ensures var e := NewModelNotFoundError(message, name, details);
            e.StatusCode() == 404 && e.modelName == name
    ensures NewAuthenticationError(message, details).StatusCode() == 401
  {
  }

  /** Only the base class can carry a status outside the subclasses' fixed codes; every
      subclass's status is one of 400, 401, 404 and 429. */
  lemma SubclassStatusCodes(e: GatewayError)
    requires !e.GeminiAPIError?
    ensures e.StatusCode() in {400, 401, 404, 429}
    ensures e.StatusCode() == 429 <==> e.RateLimitError?
  {
  }
}
