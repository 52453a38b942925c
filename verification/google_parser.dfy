/**
 * Decoding Google speech-to-text response JSON: the error report of a
 * response, and the transcription alternatives of one result.
 */
module GoogleParser {
  import opened Wrappers
  import opened JsonValues
  import opened SpeechResults
  import opened ErrorText
  import opened Globals

  /** The message used when an error object has none. */
  const UnknownError := "Unknown error"

  /** The "code" of an error object, when it has one. */
  function ErrorCode(error: Json): (code: Option<int>)
    ensures code.Some? <==> HasField(error, GoogleResponseJSONErrorCodeFieldKey)
  {
    var (found, code) := ReadInt(error, GoogleResponseJSONErrorCodeFieldKey, -1);
    if found then Some(code) else None
  }

  /** The "message" of an error object, or "Unknown error" when it has none. */
  function ErrorMessage(error: Json): (message: string)
    ensures !HasField(error, GoogleResponseJSONErrorMessageFieldKey) ==> message == UnknownError
  {
    ReadString(error, GoogleResponseJSONErrorMessageFieldKey, UnknownError).1
  }

  /**
   * The error report of a response: `None` when there is no "error" field,
   * otherwise its message, preceded by "(code) " when it has a code.
   */
  function GetErrorFromResponseJSON(response: Json): (error: Option<string>)
    ensures error.None? <==> !HasField(response, GoogleResponseJSONErrorFieldKey)
    ensures error.Some? ==>
      var e := GetField(response, GoogleResponseJSONErrorFieldKey).value;
      && (ErrorCode(e).Some? ==> CodeOf(error.value) == ErrorCode(e) && MessageOf(error.value) == ErrorMessage(e))
      && (ErrorCode(e).None? ==> error.value == ErrorMessage(e))
  {
    match GetField(response, GoogleResponseJSONErrorFieldKey)
    case Some(e) =>
      FormatErrorReadBack(ErrorCode(e), ErrorMessage(e));
      Some(FormatError(ErrorCode(e), ErrorMessage(e)))
    case None => None
  }

  /** The result used when a result JSON carries no alternatives: one empty alternative. */
  function GetDefaultGoogleSpeechToTextResult(): (r: SpeechToTextResult)
    ensures r.isFinal
    ensures r.HasText() && |r.textAlternatives.value| == 1
    ensures r.textAlternatives.value[0] == TextAlternative("", GoogleInfo(0.0))
  {
    SpeechToTextResult(DefaultIsFinal, Some([TextAlternative("", GoogleInfo(0.0))]))
  }

  /** One alternative: its "transcript" (or "") and "confidence" (or 0). */
  function ParseAlternative(alternative: Json): (a: TextAlternative)
    ensures !HasField(alternative, GoogleResponseJSONAlternativeTranscriptFieldKey) ==> a.text == ""
    ensures !HasField(alternative, GoogleResponseJSONAlternativeConfidenceFieldKey) ==> a.info == GoogleInfo(0.0)
    ensures a.info.GoogleInfo?
  {
    TextAlternative(
      ReadString(alternative, GoogleResponseJSONAlternativeTranscriptFieldKey, "").1,
      GoogleInfo(ReadReal(alternative, GoogleResponseJSONAlternativeConfidenceFieldKey, 0.0).1))
  }

  /** The elements of a result's "alternatives" field, if it has one. */
  function AlternativesOf(result: Json): seq<Json> {
    match GetField(result, GoogleResponseJSONAlternativesFieldKey)
    case Some(alternatives) => Elements(alternatives)
    case None => []
  }

  /**
   * The result a result JSON describes: one alternative per element of its
   * "alternatives", in order, or the default result when there are none. The
   * parser leaves finality at the constructor's default.
   */
  function GetTextResultFromResultJSON(result: Json): (r: SpeechToTextResult)
    ensures r.isFinal
    ensures r.HasText()
    ensures |AlternativesOf(result)| == 0 ==> r == GetDefaultGoogleSpeechToTextResult()
    ensures |AlternativesOf(result)| > 0 ==>
      && |r.textAlternatives.value| == |AlternativesOf(result)|
      && forall i :: 0 <= i < |AlternativesOf(result)| ==>
           r.textAlternatives.value[i] == ParseAlternative(AlternativesOf(result)[i])
  {
    var alternatives := AlternativesOf(result);
    if |alternatives| > 0 then
      SpeechToTextResult(DefaultIsFinal,
        Some(ParseAlternatives(alternatives)))
    else GetDefaultGoogleSpeechToTextResult()
  }

  /** Each alternative object parsed, in order. */
  function ParseAlternatives(alternatives: seq<Json>): (r: seq<TextAlternative>)
    ensures |r| == |alternatives|
    ensures forall i :: 0 <= i < |alternatives| ==> r[i] == ParseAlternative(alternatives[i])
  {
    if alternatives == [] then []
    else [ParseAlternative(alternatives[0])] + ParseAlternatives(alternatives[1..])
  }

  // ---------------------------------------------------------------------
  // Encoders: the responses a server would send for given contents
  // ---------------------------------------------------------------------

  /** An alternative object with the given transcript and confidence. */
  function AlternativeJson(transcript: string, confidence: real): Json {
    JObject([(GoogleResponseJSONAlternativeTranscriptFieldKey, JString(transcript)),
             (GoogleResponseJSONAlternativeConfidenceFieldKey, JNumber(confidence))])
  }

  /** A result object listing the given alternative objects. */
  function ResultObject(items: seq<Json>): Json {
    JObject([(GoogleResponseJSONAlternativesFieldKey, JArray(items))])
  }

  /** A result object listing the given (transcript, confidence) alternatives. */
  function ResultJson(alternatives: seq<(string, real)>): Json {
    ResultObject(AlternativeJsons(alternatives))
  }

  /** One alternative object per (transcript, confidence) pair, in order. */
  function AlternativeJsons(alternatives: seq<(string, real)>): (r: seq<Json>)
    ensures |r| == |alternatives|
    ensures forall i :: 0 <= i < |alternatives| ==> r[i] == AlternativeJson(alternatives[i].0, alternatives[i].1)
  {
    if alternatives == [] then []
    else [AlternativeJson(alternatives[0].0, alternatives[0].1)] + AlternativeJsons(alternatives[1..])
  }

  /** A response whose "error" object has the given code and message fields, where present. */
  function ErrorResponseJson(code: Option<int>, message: Option<string>): Json {
    JObject([(GoogleResponseJSONErrorFieldKey, ErrorObjectJson(code, message))])
  }

  /** The "error" object: its "code" when there is one, then its "message" when there is one. */
  function ErrorObjectJson(code: Option<int>, message: Option<string>): Json {
    var codeField := if code.Some? then [(GoogleResponseJSONErrorCodeFieldKey, JNumber(code.value as real))] else [];
    var messageField := if message.Some? then [(GoogleResponseJSONErrorMessageFieldKey, JString(message.value))] else [];
    JObject(codeField + messageField)
  }

  /** The text alternatives some (transcript, confidence) pairs stand for. */
  function AlternativesFor(alternatives: seq<(string, real)>): (r: seq<TextAlternative>)
    ensures |r| == |alternatives|
    ensures forall i :: 0 <= i < |r| ==> r[i] == TextAlternative(alternatives[i].0, GoogleInfo(alternatives[i].1))
  {
    if alternatives == [] then []
    else [TextAlternative(alternatives[0].0, GoogleInfo(alternatives[0].1))] + AlternativesFor(alternatives[1..])
  }

  /** An encoded alternative parses back to its transcript and confidence. */
  lemma AlternativeJsonRoundTrip(transcript: string, confidence: real)
    ensures ParseAlternative(AlternativeJson(transcript, confidence)) == TextAlternative(transcript, GoogleInfo(confidence))
  {
    var a := AlternativeJson(transcript, confidence);
    assert GetField(a, GoogleResponseJSONAlternativeTranscriptFieldKey) == Some(a.fields[0].1);
    assert GetField(a, GoogleResponseJSONAlternativeConfidenceFieldKey) == Some(a.fields[1].1);
  }

  /** Parsing encoded alternatives gives back the alternatives, in order. */
  lemma {:induction false} AlternativeJsonsRoundTrip(alternatives: seq<(string, real)>)
    ensures ParseAlternatives(AlternativeJsons(alternatives)) == AlternativesFor(alternatives)
    decreases |alternatives|
  {
    if alternatives != [] {
      var jsons := AlternativeJsons(alternatives);
      assert jsons[1..] == AlternativeJsons(alternatives[1..]);
      AlternativeJsonRoundTrip(alternatives[0].0, alternatives[0].1);
      AlternativeJsonsRoundTrip(alternatives[1..]);
    }
  }

  /** Any result JSON whose alternatives are encoded ones decodes to exactly those alternatives. */
  lemma ParsesEncodedAlternatives(result: Json, alternatives: seq<(string, real)>)
    requires |alternatives| > 0
    requires AlternativesOf(result) == AlternativeJsons(alternatives)
    ensures GetTextResultFromResultJSON(result).isFinal
    ensures GetTextResultFromResultJSON(result).textAlternatives == Some(AlternativesFor(alternatives))
  {
    AlternativeJsonsRoundTrip(alternatives);
  }

  /** Decoding a result JSON gives back exactly the alternatives it was built from. */
  lemma ResultJsonRoundTrip(alternatives: seq<(string, real)>)
    requires |alternatives| > 0
    ensures GetTextResultFromResultJSON(ResultJson(alternatives)).isFinal
    ensures GetTextResultFromResultJSON(ResultJson(alternatives)).textAlternatives
         == Some(AlternativesFor(alternatives))
  {
    var json := ResultJson(alternatives);
    assert GetField(json, GoogleResponseJSONAlternativesFieldKey) == Some(json.fields[0].1);
    ParsesEncodedAlternatives(json, alternatives);
  }

  /** A result JSON without alternatives decodes to the default result. */
  lemma EmptyResultJsonIsDefault()
    ensures GetTextResultFromResultJSON(ResultJson([])) == GetDefaultGoogleSpeechToTextResult()
  {
    var json := ResultJson([]);
    assert json.fields[0].1 == JArray([]);
    assert GetField(json, GoogleResponseJSONAlternativesFieldKey) == Some(JArray([]));
  }

  /**
   * The error report of an error response is its message, or "Unknown error",
   * preceded by "(code) " exactly when the response gives a code.
   */
  lemma ErrorResponseRoundTrip(code: Option<int>, message: Option<string>)
    ensures GetErrorFromResponseJSON(ErrorResponseJson(code, message))
         == Some(FormatError(code, message.GetOr(UnknownError)))
  {
    var json := ErrorResponseJson(code, message);
    assert GetField(json, GoogleResponseJSONErrorFieldKey) == Some(ErrorObjectJson(code, message));
    ErrorObjectCode(code, message);
    ErrorObjectMessage(code, message);
  }

  lemma ErrorObjectCode(code: Option<int>, message: Option<string>)
    ensures ErrorCode(ErrorObjectJson(code, message)) == code
  {
    var e := ErrorObjectJson(code, message);
    if code.Some? {
      var v := JNumber(code.value as real);
      assert e.fields[0] == (GoogleResponseJSONErrorCodeFieldKey, v);
      assert GetField(e, GoogleResponseJSONErrorCodeFieldKey) == Some(v);
      assert IntOf(v) == code.value;
    } else {
      assert GoogleResponseJSONErrorMessageFieldKey[0] != GoogleResponseJSONErrorCodeFieldKey[0];
      assert !HasField(e, GoogleResponseJSONErrorCodeFieldKey);
    }
  }

  lemma ErrorObjectMessage(code: Option<int>, message: Option<string>)
    ensures ErrorMessage(ErrorObjectJson(code, message)) == message.GetOr(UnknownError)
  {
    var e := ErrorObjectJson(code, message);
    if message.Some? {
      var k := if code.Some? then 1 else 0;
      assert e.fields[k] == (GoogleResponseJSONErrorMessageFieldKey, JString(message.value));
      assert GetField(e, GoogleResponseJSONErrorMessageFieldKey) == Some(JString(message.value));
    } else {
      assert !HasField(e, GoogleResponseJSONErrorMessageFieldKey);
    }
  }
}
