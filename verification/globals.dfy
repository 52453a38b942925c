/**
 * Shared constants: the SoX command-line option names, the response JSON
 * field keys of the Google and Wit.ai services, the Watson service identity,
 * and the two enumerations with the SoX names they map to.
 */
module Globals {
  import opened Wrappers

  // SoX command-line options.
  const SoXFrequencyOptionName := "--rate"
  const SoXEncodingTypeOptionName := "--encoding"
  const SoXEncodingBitsOptionName := "--bits"
  const SoXChannelsOptionName := "--channels"
  const SoXEndiannessOptionName := "--endian"

  // Google response JSON keys.
  const GoogleResponseJSONResultsFieldKey := "results"
  const GoogleResponseJSONAlternativesFieldKey := "alternatives"
  const GoogleResponseJSONAlternativeTranscriptFieldKey := "transcript"
  const GoogleResponseJSONAlternativeConfidenceFieldKey := "confidence"
  const GoogleResponseJSONResultIsFinalFieldKey := "is_final"
  const GoogleResponseJSONErrorFieldKey := "error"
  const GoogleResponseJSONErrorCodeFieldKey := "code"
  const GoogleResponseJSONErrorMessageFieldKey := "message"

  // Watson credentials.
  const WatsonSpeechToTextServiceID := "SpeechToTextV1"
  const WatsonSpeechToTextBaseURL := "https://stream.watsonplatform.net/speech-to-text/api/"

  // Wit.ai response JSON keys.
  const WitAiResponseJSONErrorMessageFieldKey := "error"
  const WitAiResponseJSONErrorCodeFieldKey := "code"
  const WitAiResponseJSONTextResultFieldKey := "_text"

  /** Byte order of raw audio samples. */
  datatype EndiannessType = Unspecified | Little | Big | Swap

  /** SoX's name for each byte order it can be told about; `Unspecified` has none. */
  const SoXEndiannessNames: map<EndiannessType, string> :=
    map[Little := "little", Big := "big", Swap := "swap"]

  /** Sample encoding of raw audio. */
  datatype EncodingType =
    | UnspecifiedEncoding
    | SignedInteger
    | UnsignedInteger
    | FloatingPoint
    | ALaw
    | ULaw
    | MuLaw
    | OkiAdpcm
    | ImaAdpcm
    | MsAdpcm
    | GSMFullRate

  /** SoX's name for each encoding it can be told about; the unspecified encoding has none. */
  const EncodingNames: map<EncodingType, string> :=
    map[
      SignedInteger := "signed-integer",
      UnsignedInteger := "unsigned-integer",
      FloatingPoint := "floating-point",
      ALaw := "a-law",
      ULaw := "u-law",
      MuLaw := "mu-law",
      OkiAdpcm := "oki-adpcm",
      ImaAdpcm := "ima-adpcm",
      MsAdpcm := "ms-adpcm",
      GSMFullRate := "gsm-full-rate"
    ]

  /** Reading a SoX byte-order name back. */
  function EndiannessFromName(name: string): (e: Option<EndiannessType>)
    ensures e.Some? ==> e.value != Unspecified
  {
    if name == "little" then Some(Little)
    else if name == "big" then Some(Big)
    else if name == "swap" then Some(Swap)
    else None
  }

  /** Reading a SoX encoding name back. */
  function EncodingFromName(name: string): (e: Option<EncodingType>)
    ensures e.Some? ==> e.value != UnspecifiedEncoding
  {
    if name == "signed-integer" then Some(SignedInteger)
    else if name == "unsigned-integer" then Some(UnsignedInteger)
    else if name == "floating-point" then Some(FloatingPoint)
    else if name == "a-law" then Some(ALaw)
    else if name == "u-law" then Some(ULaw)
    else if name == "mu-law" then Some(MuLaw)
    else if name == "oki-adpcm" then Some(OkiAdpcm)
    else if name == "ima-adpcm" then Some(ImaAdpcm)
    else if name == "ms-adpcm" then Some(MsAdpcm)
    else if name == "gsm-full-rate" then Some(GSMFullRate)
    else None
  }

  /**
   * The byte-order map covers exactly the specified byte orders, and its names
   * read back to the byte order they came from (so no two share a name).
   */
  lemma EndiannessNamesRoundTrip(e: EndiannessType, name: string)
    ensures e in SoXEndiannessNames <==> e != Unspecified
    ensures e in SoXEndiannessNames ==> EndiannessFromName(SoXEndiannessNames[e]) == Some(e)
    ensures EndiannessFromName(name) == Some(e) ==> e in SoXEndiannessNames && SoXEndiannessNames[e] == name
  {
  }

  /**
   * The encoding map covers exactly the specified encodings, and its names
   * read back to the encoding they came from (so no two share a name).
   */
  lemma EncodingNamesRoundTrip(e: EncodingType, name: string)
    ensures e in EncodingNames <==> e != UnspecifiedEncoding
    ensures e in EncodingNames ==> EncodingFromName(EncodingNames[e]) == Some(e)
    ensures EncodingFromName(name) == Some(e) ==> e in EncodingNames && EncodingNames[e] == name
  {
  }

  /** Distinct encodings have distinct SoX names. */
  lemma EncodingNamesDistinct(a: EncodingType, b: EncodingType)
    requires a in EncodingNames && b in EncodingNames && EncodingNames[a] == EncodingNames[b]
    ensures a == b
  {
    EncodingNamesRoundTrip(a, EncodingNames[a]);
    EncodingNamesRoundTrip(b, EncodingNames[b]);
  }
}
