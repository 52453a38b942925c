/**
 * The result record every service delivers: a finality flag and an optional
 * array of transcription alternatives. The vendor-specific alternative
 * classes are folded into one alternative carrying an optional vendor payload.
 */
module SpeechResults {
  import opened Wrappers

  /** Watson's per-word timing and confidence records, carried through untouched. */
  datatype WordTimeStamp = WordTimeStamp(word: string, start: real, end: real)
  datatype WordConfidence = WordConfidence(word: string, confidence: real)

  /** The Windows dictation recogniser's coarse confidence. */
  datatype ConfidenceLevel = High | Medium | Low | Rejected

  /** What an alternative carries beyond its text, by vendor. */
  datatype VendorInfo =
    | Plain
    | GoogleInfo(googleConfidence: real)
    | WatsonInfo(watsonConfidence: real,
                 timeStamps: Option<seq<WordTimeStamp>>,
                 wordConfidenceValues: Option<seq<WordConfidence>>)
    | WindowsInfo(level: ConfidenceLevel)

  datatype TextAlternative = TextAlternative(text: string, info: VendorInfo)

  /**
   * A speech-to-text result. `textAlternatives` is `None` while the array is
   * unset, as after the default constructor.
   */
  datatype SpeechToTextResult = SpeechToTextResult(isFinal: bool, textAlternatives: Option<seq<TextAlternative>>)
  {
    /** There is at least one alternative to read text from. */
    predicate HasText() {
      textAlternatives.Some? && |textAlternatives.value| > 0
    }

    /** The text of the first alternative, the one every consumer displays. */
    function FirstText(): string
      requires HasText()
    {
      textAlternatives.value[0].text
    }

    /** The same result with its finality replaced. */
    function WithFinal(final: bool): (r: SpeechToTextResult)
      ensures r.isFinal == final
      ensures r.textAlternatives == textAlternatives
    {
      this.(isFinal := final)
    }
  }

  /** A result is final unless someone says otherwise. */
  const DefaultIsFinal: bool := true

  /** The default constructor: final, with no alternatives array. */
  function NewResult(): (r: SpeechToTextResult)
    ensures r.isFinal
    ensures !r.HasText() && r.textAlternatives.None?
  {
    SpeechToTextResult(DefaultIsFinal, None)
  }

  /** The constructor from one text and a finality flag. */
  function NewTextResult(text: string, isFinal: bool): (r: SpeechToTextResult)
    ensures r.isFinal == isFinal
    ensures r.HasText() && |r.textAlternatives.value| == 1 && r.FirstText() == text
  {
    SpeechToTextResult(isFinal, Some([TextAlternative(text, Plain)]))
  }

  /** The results `NewTextResult` builds: exactly one alternative, with no vendor payload. */
  predicate IsSingleTextResult(r: SpeechToTextResult) {
    r.textAlternatives.Some? && |r.textAlternatives.value| == 1 && r.textAlternatives.value[0].info == Plain
  }

  /**
   * `NewTextResult` loses nothing: the text and finality read back out of it
   * rebuild it, and every single plain-text result is one it builds.
   */
  lemma NewTextResultRoundTrip(text: string, isFinal: bool, r: SpeechToTextResult)
    ensures IsSingleTextResult(NewTextResult(text, isFinal))
    ensures NewTextResult(text, isFinal).FirstText() == text
    ensures IsSingleTextResult(r) ==> NewTextResult(r.FirstText(), r.isFinal) == r
  {
    if IsSingleTextResult(r) {
      assert r.textAlternatives.value == [TextAlternative(r.FirstText(), Plain)];
    }
  }

  /** Forcing finality keeps the alternatives and is idempotent. */
  lemma WithFinalIdempotent(r: SpeechToTextResult)
    ensures r.WithFinal(true).WithFinal(true) == r.WithFinal(true)
    ensures r.isFinal ==> r.WithFinal(true) == r
  {
  }
}
