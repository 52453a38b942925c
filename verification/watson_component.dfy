/**
 * The Watson glue shared by the Watson services: registering API
 * credentials with the SDK's configuration, and converting the SDK's
 * recognition result into a `SpeechToTextResult`.
 */
module WatsonComponent {
  import opened Wrappers
  import opened SpeechResults
  import opened Globals

  /** One entry of the SDK's credential list. */
  datatype CredentialInfo = CredentialInfo(serviceID: string, url: string, user: string, password: string)

  /** The SDK's lookup: the first entry for a service. */
  function FindCredentials(credentials: seq<CredentialInfo>, serviceID: string): (r: Option<CredentialInfo>)
    ensures r.None? <==> forall k :: 0 <= k < |credentials| ==> credentials[k].serviceID != serviceID
    ensures r.Some? ==> r.value in credentials && r.value.serviceID == serviceID
  {
    if |credentials| == 0 then None
    else if credentials[0].serviceID == serviceID then Some(credentials[0])
    else FindCredentials(credentials[1..], serviceID)
  }

  /**
   * Adds credentials for the speech-to-text service unless some are already
   * registered; existing credentials are never replaced.
   */
  function ConfigureCredentials(credentials: seq<CredentialInfo>, apiUsername: string, apiPassword: string)
    : (r: seq<CredentialInfo>)
    ensures FindCredentials(r, WatsonSpeechToTextServiceID).Some?
    ensures FindCredentials(credentials, WatsonSpeechToTextServiceID).Some? ==> r == credentials
    ensures FindCredentials(credentials, WatsonSpeechToTextServiceID).None? ==>
      && |r| == |credentials| + 1 && r[..|credentials|] == credentials
      && FindCredentials(r, WatsonSpeechToTextServiceID)
         == Some(CredentialInfo(WatsonSpeechToTextServiceID, WatsonSpeechToTextBaseURL, apiUsername, apiPassword))
  {
    if FindCredentials(credentials, WatsonSpeechToTextServiceID).None? then
      var entry := CredentialInfo(WatsonSpeechToTextServiceID, WatsonSpeechToTextBaseURL, apiUsername, apiPassword);
      FindAfterAbsent(credentials, entry);
      credentials + [entry]
    else credentials
  }

  lemma {:induction false} FindAfterAbsent(credentials: seq<CredentialInfo>, entry: CredentialInfo)
    requires FindCredentials(credentials, entry.serviceID).None?
    ensures FindCredentials(credentials + [entry], entry.serviceID) == Some(entry)
  {
    if |credentials| > 0 {
      assert (credentials + [entry])[1..] == credentials[1..] + [entry];
      FindAfterAbsent(credentials[1..], entry);
    }
  }

  /** Configuring twice adds one entry: the second call, whatever its arguments, changes nothing. */
  lemma ConfigureCredentialsIdempotent(credentials: seq<CredentialInfo>, user1: string, password1: string,
                                       user2: string, password2: string)
    ensures ConfigureCredentials(ConfigureCredentials(credentials, user1, password1), user2, password2)
         == ConfigureCredentials(credentials, user1, password1)
  {
  }

  /** One alternative of the SDK's recognition result. */
  datatype WatsonAlternative = WatsonAlternative(
    transcript: string,
    confidence: real,
    timestamps: Option<seq<WordTimeStamp>>,
    wordConfidence: Option<seq<WordConfidence>>)

  /** The SDK's recognition result. */
  datatype SpeechRecognitionResult = SpeechRecognitionResult(final: bool, alternatives: seq<WatsonAlternative>)

  function ConvertAlternative(a: WatsonAlternative): TextAlternative {
    TextAlternative(a.transcript, WatsonInfo(a.confidence, a.timestamps, a.wordConfidence))
  }

  /**
   * The conversion: finality copied, one alternative per SDK alternative in
   * the same order; an SDK result with no alternatives gives an empty array.
   */
  function CreateSpeechToTextResult(watsonResult: SpeechRecognitionResult): (r: SpeechToTextResult)
    ensures r.isFinal == watsonResult.final
    ensures r.textAlternatives.Some?
    ensures |r.textAlternatives.value| == |watsonResult.alternatives|
    ensures forall i :: 0 <= i < |watsonResult.alternatives| ==>
              r.textAlternatives.value[i].text == watsonResult.alternatives[i].transcript
              && r.textAlternatives.value[i].info.WatsonInfo?
  {
    SpeechToTextResult(watsonResult.final, Some(ConvertAlternatives(watsonResult.alternatives)))
  }

  /** Each SDK alternative converted, in order. */
  function ConvertAlternatives(alternatives: seq<WatsonAlternative>): (r: seq<TextAlternative>)
    ensures |r| == |alternatives|
    ensures forall i :: 0 <= i < |alternatives| ==> r[i] == ConvertAlternative(alternatives[i])
  {
    if alternatives == [] then []
    else [ConvertAlternative(alternatives[0])] + ConvertAlternatives(alternatives[1..])
  }

  /** Reading an SDK result back out of a converted one. */
  function ToWatsonResult(r: SpeechToTextResult): SpeechRecognitionResult {
    SpeechRecognitionResult(r.isFinal, ReadBackAlternatives(r.textAlternatives.GetOr([])))
  }

  /** An SDK alternative read back from a converted one; other vendors' details read as none. */
  function ReadBackAlternative(a: TextAlternative): WatsonAlternative {
    if a.info.WatsonInfo? then
      WatsonAlternative(a.text, a.info.watsonConfidence, a.info.timeStamps, a.info.wordConfidenceValues)
    else WatsonAlternative(a.text, 0.0, None, None)
  }

  /** Each converted alternative read back, in order. */
  function ReadBackAlternatives(alternatives: seq<TextAlternative>): (r: seq<WatsonAlternative>)
    ensures |r| == |alternatives|
    ensures forall i :: 0 <= i < |alternatives| ==> r[i] == ReadBackAlternative(alternatives[i])
  {
    if alternatives == [] then []
    else [ReadBackAlternative(alternatives[0])] + ReadBackAlternatives(alternatives[1..])
  }

  /** The conversion loses nothing: the SDK result can be read back from it. */
  lemma CreateSpeechToTextResultRoundTrip(watsonResult: SpeechRecognitionResult)
    ensures ToWatsonResult(CreateSpeechToTextResult(watsonResult)) == watsonResult
  {
    var back := ToWatsonResult(CreateSpeechToTextResult(watsonResult));
    assert back.alternatives == watsonResult.alternatives;
  }
}
