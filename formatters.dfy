/** Response formatting helpers: the usage block, the error body, the paginated list body
    and the log truncation of strings. Dictionaries with optional keys are records whose
    optional keys are `Option`s; the timestamp is passed in. */
module Formatters {
  import opened Wrappers
  import opened PyText
  import opened Exceptions
  import Client

  /** `usage.get(name, 0)`. */
  function GetOrZero(usage: map<string, int>, name: string): int {
    if name in usage then usage[name] else 0
  }

  /** `format_usage_info`: exactly the three token counts, each missing one as 0; any other
      key is dropped. */
  function FormatUsageInfo(usage: map<string, int>): (r: map<string, int>)
    ensures r.Keys == Client.UsageKeys
    ensures forall name :: name in r ==> r[name] == GetOrZero(usage, name)
  {
    map["prompt_tokens" := GetOrZero(usage, "prompt_tokens"),
        "completion_tokens" := GetOrZero(usage, "completion_tokens"),
        "total_tokens" := GetOrZero(usage, "total_tokens")]
  }

  /** Formatting twice is formatting once, and the usage block a generation reports passes
      through unchanged, its total still the sum of its parts. */
  lemma FormatUsageInfoStable(usage: map<string, int>, prompt: string, completion: string)
    ensures FormatUsageInfo(FormatUsageInfo(usage)) == FormatUsageInfo(usage)
    ensures FormatUsageInfo(Client.Usage(prompt, completion)) == Client.Usage(prompt, completion)
    ensures FormatUsageInfo(map[])["total_tokens"] == 0
  {
    var u := Client.Usage(prompt, completion);
    assert FormatUsageInfo(u).Keys == u.Keys;
  }

  /** The error body: `detail` and `timestamp` always, `error_code` and `details` only when
      given and not empty. */
  datatype ErrorBody = ErrorBody(detail: string, timestamp: string, errorCode: Option<string>, details: Option<Details>)

  function FormatErrorResponse(message: string, errorCode: Option<string>, details: Option<Details>, timestamp: string)
    : (r: ErrorBody)
    ensures r.detail == message && r.timestamp == timestamp
    ensures r.errorCode.Some? <==> TruthyStr(errorCode)
    ensures r.details.Some? <==> details.Some? && details.value != map[]
    ensures r.errorCode.Some? ==> r.errorCode == errorCode
    ensures r.details.Some? ==> r.details == details
  {
    ErrorBody(message, timestamp,
              if TruthyStr(errorCode) then errorCode else None,
              if details.Some? && details.value != map[] then details else None)
  }

  /** The body for a gateway error keeps its message and carries its details exactly when
      there are any; an empty code or dictionary never appears as a key. */
  lemma ErrorResponseOfGatewayError(e: GatewayError, code: string, timestamp: string)
    ensures var body := FormatErrorResponse(e.message, Some(code), Some(e.details), timestamp);
            && body.detail == e.message
            && (body.details.Some? <==> e.details != map[])
            && (body.errorCode.Some? <==> code != "")
  {
  }

  /** Python's `a // b`: the quotient rounded toward minus infinity. */
  function FloorDiv(a: int, b: int): (q: int)
    requires b != 0
    ensures b > 0 ==> b * q <= a < b * q + b
    ensures b < 0 ==> b * q + b < a <= b * q
  {
    if b > 0 then a / b else (-a) / (-b)
  }

  /** Dividing by a zero page size raises `ZeroDivisionError`. */
  datatype ZeroDivisionError = ZeroDivisionError

  /** The list body; each optional key is present exactly when the argument was given. */
  datatype ListBody<T> = ListBody(items: seq<T>, total: Option<int>, page: Option<int>, pageSize: Option<int>,
                                  totalPages: Option<int>)

  /** `format_list_response`: the page count `(total + page_size - 1) // page_size` appears
      only when total, page and page size are all given, and a zero page size then raises. */
  function FormatListResponse<T>(items: seq<T>, total: Option<int>, page: Option<int>, pageSize: Option<int>)
    : (r: Result<ListBody<T>, ZeroDivisionError>)
    ensures r.Failure? <==> total.Some? && page.Some? && pageSize == Some(0)
    ensures r.Success? ==> r.value.items == items && r.value.total == total && r.value.page == page
                           && r.value.pageSize == pageSize
                           && (r.value.totalPages.Some? <==> total.Some? && page.Some? && pageSize.Some?)
  {
    if pageSize.Some? && total.Some? && page.Some? then
      if pageSize.value == 0 then Failure(ZeroDivisionError)
      else Success(ListBody(items, total, page, pageSize,
                            Some(FloorDiv(total.value + pageSize.value - 1, pageSize.value))))
    else Success(ListBody(items, total, page, pageSize, None))
  }

  /** With a positive page size, the page count is the least number of pages that hold
      `total` items: zero for no items, and otherwise the last page is not empty. */
  lemma {:induction false} TotalPagesIsCeiling<T>(items: seq<T>, total: nat, page: int, pageSize: nat)
    requires pageSize > 0
    ensures var r := FormatListResponse(items, Some(total), Some(page), Some(pageSize));
            && r.Success? && r.value.totalPages.Some?
            && var n := r.value.totalPages.value;
               && n >= 0
               && n * pageSize >= total
               && (n - 1) * pageSize < total + (if total == 0 then pageSize else 0)
               && (n == 0 <==> total == 0)
  {
    var r := FormatListResponse(items, Some(total), Some(page), Some(pageSize));
    var n := r.value.totalPages.value;
    assert n == FloorDiv(total + pageSize - 1, pageSize);
    assert pageSize * n <= total + pageSize - 1 < pageSize * n + pageSize;
    assert n * pageSize == pageSize * n;
    assert (n - 1) * pageSize == pageSize * n - pageSize;
  }

  const TruncationMarker: string := "... [truncated]"

  /** `sanitize_for_logging` on a string: kept as it is when it fits, and otherwise cut with
      `data[:max_length]` and marked as truncated. */
  function SanitizeForLogging(data: string, maxLength: int := 1000): (r: string)
    ensures |data| <= maxLength ==> r == data
    ensures |data| > maxLength ==>
              r == SlicePrefix(data, maxLength) + TruncationMarker
  {
    if |data| > maxLength then SlicePrefix(data, maxLength) + TruncationMarker else data
  }

  /** For a non-negative limit the logged text is a prefix of the input of at most
      `max_length` characters, plus the marker only when something was cut; a long input
      keeps exactly its first `max_length` characters. */
  lemma SanitizeForLoggingBound(data: string, maxLength: int)
    requires maxLength >= 0
    ensures var r := SanitizeForLogging(data, maxLength);
            && |r| <= maxLength + |TruncationMarker|
            && (|data| > maxLength ==> |r| == maxLength + |TruncationMarker|
                                       && r[..maxLength] == data[..maxLength] && r[maxLength..] == TruncationMarker)
  {
  }
}
