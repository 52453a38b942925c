/**
 * Decoding Wit.ai speech-to-text response JSON. Unlike Google's, a Wit.ai
 * error sits at the top level: an "error" message field and an optional
 * "code" next to it.
 */
module WitAiParser {
  import opened Wrappers
  import opened JsonValues
  import opened SpeechResults
  import opened ErrorText
  import opened Globals

  function ErrorCode(response: Json): (code: Option<int>)
    ensures code.Some? <==> HasField(response, WitAiResponseJSONErrorCodeFieldKey)
  {
    var (found, code) := ReadInt(response, WitAiResponseJSONErrorCodeFieldKey, -1);
    if found then Some(code) else None
  }

  /**
   * The error report of a response: `None` unless the "error" field is
   * present (a "code" alone is no error), otherwise the message preceded by
   * "(code) " when there is a code.
   */
  function GetErrorFromResponseJSON(response: Json): (error: Option<string>)
    ensures error.None? <==> !HasField(response, WitAiResponseJSONErrorMessageFieldKey)
    ensures error.Some? ==>
      var message := StringOf(GetField(response, WitAiResponseJSONErrorMessageFieldKey).value);
      && (ErrorCode(response).Some? ==>
            CodeOf(error.value) == ErrorCode(response) && MessageOf(error.value) == message)
      && (ErrorCode(response).None? ==> error.value == message)
  {
    var (found, message) := ReadString(response, WitAiResponseJSONErrorMessageFieldKey, "Unknown error");
    if found then
      FormatErrorReadBack(ErrorCode(response), message);
      Some(FormatError(ErrorCode(response), message))
    else None
  }

  /**
   * The result of a response: always final (the service reports no
   * finality), with the "_text" field, or "", as its one alternative.
   */
  function GetTextResultFromResponseJSON(response: Json): (r: SpeechToTextResult)
    ensures r.isFinal
    ensures IsSingleTextResult(r)
    ensures HasField(response, WitAiResponseJSONTextResultFieldKey) ==>
              r.FirstText() == StringOf(GetField(response, WitAiResponseJSONTextResultFieldKey).value)
    ensures !HasField(response, WitAiResponseJSONTextResultFieldKey) ==> r.FirstText() == ""
  {
    var (_, text) := ReadString(response, WitAiResponseJSONTextResultFieldKey, "");
    NewTextResult(text, true)
  }

  // ---------------------------------------------------------------------
  // Encoders: the responses a server would send for given contents
  // ---------------------------------------------------------------------

  function TextResponseJson(text: string): Json {
    JObject([(WitAiResponseJSONTextResultFieldKey, JString(text))])
  }

  function ErrorResponseJson(code: Option<int>, message: string): Json {
    var codeField := if code.Some? then [(WitAiResponseJSONErrorCodeFieldKey, JNumber(code.value as real))] else [];
    JObject([(WitAiResponseJSONErrorMessageFieldKey, JString(message))] + codeField)
  }

  /** A text response decodes to a final result holding exactly that text, and reports no error. */
  lemma TextResponseRoundTrip(text: string)
    ensures GetTextResultFromResponseJSON(TextResponseJson(text)) == NewTextResult(text, true)
    ensures GetErrorFromResponseJSON(TextResponseJson(text)).None?
  {
    var json := TextResponseJson(text);
    assert GetField(json, WitAiResponseJSONTextResultFieldKey) == Some(JString(text));
  }

  /** The fields of an error response read back as they were written. */
  lemma ErrorResponseFields(code: Option<int>, message: string)
    ensures ErrorCode(ErrorResponseJson(code, message)) == code
    ensures ReadString(ErrorResponseJson(code, message), WitAiResponseJSONErrorMessageFieldKey, "Unknown error")
         == (true, message)
  {
    var json := ErrorResponseJson(code, message);
    assert json.fields[0] == (WitAiResponseJSONErrorMessageFieldKey, JString(message));
    assert GetField(json, WitAiResponseJSONErrorMessageFieldKey) == Some(JString(message));
    if code.Some? {
      ErrorCodeField(code.value, message);
    } else {
      assert |json.fields| == 1;
      assert !HasField(json, WitAiResponseJSONErrorCodeFieldKey);
    }
  }

  lemma ErrorCodeField(code: int, message: string)
    ensures ErrorCode(ErrorResponseJson(Some(code), message)) == Some(code)
  {
    var json := ErrorResponseJson(Some(code), message);
    assert json.fields[1] == (WitAiResponseJSONErrorCodeFieldKey, JNumber(code as real));
    assert IndexOfKey(json.fields, WitAiResponseJSONErrorCodeFieldKey) == 1;
    assert TruncateToInt(code as real) == code;
  }

  /** An error response reports its message, preceded by "(code) " exactly when it gives a code. */
  lemma ErrorResponseRoundTrip(code: Option<int>, message: string)
    ensures GetErrorFromResponseJSON(ErrorResponseJson(code, message)) == Some(FormatError(code, message))
  {
    ErrorResponseFields(code, message);
  }

  /** A lone "code" field is not an error. */
  lemma CodeAloneIsNoError(code: int)
    ensures GetErrorFromResponseJSON(JObject([(WitAiResponseJSONErrorCodeFieldKey, JNumber(code as real))])).None?
  {
  }
}
