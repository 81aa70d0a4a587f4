/** The request validators. Each either returns the (normalised) value or raises an
    `InvalidInputError` naming the offending field; here that is a `Result` whose failure
    is the error. Values arrive already typed, so the `isinstance` checks have no
    counterpart. */
module Validators {
  import opened Wrappers
  import opened PyText
  import opened Exceptions

  /** `validate_prompt`: the prompt is stripped, then rejected when shorter than
      `min_length` (checked first) or longer than `max_length`. */
  function ValidatePrompt(prompt: string, maxLength: int := 10000, minLength: int := 1): (r: Result<string, GatewayError>)
    ensures r.Success? <==> minLength <= |Strip(prompt)| <= maxLength
    ensures r.Success? ==> r.value == Strip(prompt) && IsStripped(r.value)
    ensures r.Failure? ==> r.error.InvalidInputError? && r.error.field == Some("prompt")
    ensures |Strip(prompt)| < minLength ==>
              r == Failure(NewInvalidInputError("Prompt must be at least " + IntToString(minLength) + " characters",
                                                Some("prompt")))
  {
    var p := Strip(prompt);
    StripShape(prompt);
    if |p| < minLength then
      Failure(NewInvalidInputError("Prompt must be at least " + IntToString(minLength) + " characters", Some("prompt")))
    else if |p| > maxLength then
      Failure(NewInvalidInputError("Prompt exceeds maximum length of " + IntToString(maxLength) + " characters",
                                   Some("prompt")))
    else Success(p)
  }

  /** Validating an accepted prompt again accepts it unchanged; with the default bounds a
      prompt of nothing but whitespace is always refused. */
  lemma ValidatePromptIdempotent(prompt: string, maxLength: int, minLength: int)
    ensures var r := ValidatePrompt(prompt, maxLength, minLength);
            r.Success? ==> ValidatePrompt(r.value, maxLength, minLength) == r
    ensures (forall k :: 0 <= k < |prompt| ==> IsSpace(prompt[k])) ==> ValidatePrompt(prompt).Failure?
  {
    StripIdempotent(prompt);
    StripShape(prompt);
  }

  /** `validate_temperature`: accepted exactly when `min_val <= t <= max_val`. */
  function ValidateTemperature(temperature: real, minVal: real := 0.0, maxVal: real := 2.0): (r: Result<real, GatewayError>)
    ensures r.Success? <==> minVal <= temperature <= maxVal
    ensures r.Success? ==> r.value == temperature
    ensures r.Failure? ==> r.error.StatusCode() == 400 && r.error.InvalidInputError? && r.error.field == Some("temperature")
  {
    if temperature < minVal || temperature > maxVal then
      Failure(NewInvalidInputError("Temperature must be between " + FormatFixed(minVal, 1) + " and "
                                   + FormatFixed(maxVal, 1), Some("temperature")))
    else Success(temperature)
  }

  /** `validate_max_tokens`: `None` passes as `None`; a given value must lie in
      `1..max_allowed`, and is returned unchanged. */
  function ValidateMaxTokens(maxTokens: Option<int>, maxAllowed: int := 8192): (r: Result<Option<int>, GatewayError>)
    ensures maxTokens.None? ==> r == Success(None)
    ensures maxTokens.Some? ==> (r.Success? <==> 0 < maxTokens.value <= maxAllowed)
    ensures r.Success? ==> r.value == maxTokens
    ensures r.Failure? ==> r.error.InvalidInputError? && r.error.field == Some("max_tokens")
  {
    match maxTokens
    case None => Success(None)
    case Some(n) =>
      if n <= 0 then Failure(NewInvalidInputError("max_tokens must be greater than 0", Some("max_tokens")))
      else if n > maxAllowed then
        Failure(NewInvalidInputError("max_tokens exceeds maximum allowed value of " + IntToString(maxAllowed),
                                     Some("max_tokens")))
      else Success(maxTokens)
  }

  /** `validate_file_type`: the MIME type must be one of the allowed ones; the message
      lists them joined by ", ". */
  function ValidateFileType(mimeType: string, allowedTypes: seq<string>): (r: Outcome<GatewayError>)
    ensures r.Pass? <==> mimeType in allowedTypes
    ensures r.Fail? ==> r.error.InvalidInputError? && r.error.field == Some("file_type")
                        && r.error.message == "File type '" + mimeType + "' not allowed. Allowed types: "
                                              + Join(", ", allowedTypes)
  {
    if mimeType !in allowedTypes then
      Fail(NewInvalidInputError("File type '" + mimeType + "' not allowed. Allowed types: " + Join(", ", allowedTypes),
                                Some("file_type")))
    else Pass
  }

  /** The limit in megabytes as the size message shows it, `max_size_bytes / (1024 * 1024)`
      with one decimal. */
  function MaxMbText(maxSizeBytes: int): string {
    FormatFixed(maxSizeBytes as real / (1024 * 1024) as real, 1)
  }

  /** `validate_file_size`: refused exactly when the size exceeds the limit; a size equal to
      the limit passes. */
  function ValidateFileSize(sizeBytes: int, maxSizeBytes: int): (r: Outcome<GatewayError>)
    ensures r.Pass? <==> sizeBytes <= maxSizeBytes
    ensures r.Fail? ==> r.error.InvalidInputError? && r.error.field == Some("file_size")
  {
    if sizeBytes > maxSizeBytes then
      Fail(NewInvalidInputError("File size exceeds maximum allowed size of " + MaxMbText(maxSizeBytes) + "MB",
                                Some("file_size")))
    else Pass
  }

  /** A 10 MB limit is reported as "10.0MB", and one byte over it is refused. */
  lemma FileSizeMessageAtDefaultLimit()
    ensures MaxMbText(10 * 1024 * 1024) == "10.0"
    ensures ValidateFileSize(10 * 1024 * 1024 + 1, 10 * 1024 * 1024).Fail?
    ensures ValidateFileSize(10 * 1024 * 1024, 10 * 1024 * 1024).Pass?
  {
    assert (10 * 1024 * 1024) as real / (1024 * 1024) as real == 10 as real;
    FormatFixedWhole(10);
    assert NatToString(10) == "10";
  }

  const ValidRoles: seq<string> := ["user", "assistant", "system"]

  lemma RolesListed()
    ensures Join(", ", ValidRoles) == "user, assistant, system"
  {
    assert ValidRoles[1..] == ["assistant", "system"];
    assert ValidRoles[1..][1..] == ["system"];
  }

  /** `validate_role`: one of user, assistant and system, returned unchanged. */
  function ValidateRole(role: string): (r: Result<string, GatewayError>)
    ensures r.Success? <==> role == "user" || role == "assistant" || role == "system"
    ensures r.Success? ==> r.value == role
    ensures r.Failure? ==> r.error.InvalidInputError? && r.error.field == Some("role")
                           && r.error.message == "Role must be one of: " + "user, assistant, system"
  {
    RolesListed();
    if role !in ValidRoles then
      Failure(NewInvalidInputError("Role must be one of: " + Join(", ", ValidRoles), Some("role")))
    else Success(role)
  }

  /** `validate_language_code`: `None` and "auto" pass through; anything else must be two
      characters long and comes back lower-cased. */
  function ValidateLanguageCode(language: Option<string>): (r: Result<Option<string>, GatewayError>)
    ensures language.None? || language == Some("auto") ==> r == Success(language)
    ensures language.Some? && language.value != "auto" ==>
              (r.Success? <==> |language.value| == 2)
              && (r.Success? ==> r.value == Some(Lower(language.value)))
    ensures r.Failure? ==> r.error.InvalidInputError? && r.error.field == Some("language")
  {
    if language.None? || language.value == "auto" then Success(language)
    else if |language.value| != 2 then
      Failure(NewInvalidInputError("Language code must be a 2-character ISO 639-1 code or 'auto'", Some("language")))
    else Success(Some(Lower(language.value)))
  }

  /** An accepted language code is accepted again unchanged. */
  lemma ValidateLanguageCodeIdempotent(language: Option<string>)
    ensures var r := ValidateLanguageCode(language);
            r.Success? ==> ValidateLanguageCode(r.value) == r
  {
    var r := ValidateLanguageCode(language);
    if r.Success? && language.Some? && language.value != "auto" {
      LowerIdempotent(language.value);
    }
  }
}
