/**
 * The SoX audio conversion job: the output format record, the job's two
 * constructors, the command line it hands to SoX, and the error message it
 * leaves behind. Starting the process, waiting for it and probing the file
 * system are not modelled; whether SoX exists and whether the output file
 * appeared are inputs.
 */
module SoXJob {
  import opened Wrappers
  import opened Decimal
  import opened Globals

  /** Format of the audio SoX should write. */
  datatype AudioFileFormatting = AudioFileFormatting(
    channels: int,
    encodingBits: int,
    encodingType: EncodingType,
    endianness: EndiannessType,
    frequency: int)

  datatype SoXAudioConversionJob = SoXAudioConversionJob(
    inputFilePath: string,
    outputFilePath: string,
    outputFileFormatting: AudioFileFormatting,
    errorMessage: Option<string>)

  const DefaultOutputBits: int := 16
  const DefaultOutputChannels: int := 1

  const SoXNotFoundMessage := "Could not locate audio conversion application SoX within StreamingAssets."
  const SoXFailedMessage := "Audio conversion with SoX was unsuccessful."

  /** The constructor from a complete format. */
  function NewJob(inputFilePath: string, outputFilePath: string, outputFormatting: AudioFileFormatting)
    : (job: SoXAudioConversionJob)
    ensures job.inputFilePath == inputFilePath && job.outputFilePath == outputFilePath
    ensures job.outputFileFormatting == outputFormatting
    ensures job.errorMessage.None?
  {
    SoXAudioConversionJob(inputFilePath, outputFilePath, outputFormatting, None)
  }

  /** The convenience constructor with every parameter given. */
  function NewJobFromParameters(inputFilePath: string, outputFilePath: string, outputFrequency: int,
                                outputBits: int, outputChannels: int,
                                outputEncodingType: EncodingType, outputEndianness: EndiannessType)
    : (job: SoXAudioConversionJob)
    ensures job.outputFileFormatting.frequency == outputFrequency
    ensures job.outputFileFormatting.encodingBits == outputBits
    ensures job.outputFileFormatting.channels == outputChannels
    ensures job.outputFileFormatting.encodingType == outputEncodingType
    ensures job.outputFileFormatting.endianness == outputEndianness
  {
    NewJob(inputFilePath, outputFilePath,
      AudioFileFormatting(outputChannels, outputBits, outputEncodingType, outputEndianness, outputFrequency))
  }

  /** The convenience constructor with its defaults: 16 bits, 1 channel, nothing else specified. */
  function NewJobWithDefaults(inputFilePath: string, outputFilePath: string, outputFrequency: int)
    : (job: SoXAudioConversionJob)
    ensures job.outputFileFormatting == AudioFileFormatting(1, 16, UnspecifiedEncoding, Unspecified, outputFrequency)
    ensures job.inputFilePath == inputFilePath && job.outputFilePath == outputFilePath
  {
    NewJobFromParameters(inputFilePath, outputFilePath, outputFrequency,
      DefaultOutputBits, DefaultOutputChannels, UnspecifiedEncoding, Unspecified)
  }

  /** The mandatory part of the command line: input path, rate, bits and channels. */
  function BaseArguments(job: SoXAudioConversionJob): string {
    var f := job.outputFileFormatting;
    job.inputFilePath
      + " " + SoXFrequencyOptionName + " " + IntToString(f.frequency)
      + " " + SoXEncodingBitsOptionName + " " + IntToString(f.encodingBits)
      + " " + SoXChannelsOptionName + " " + IntToString(f.channels)
  }

  /** The command-line arguments, built by concatenation in the order the job appends them. */
  function ArgumentString(job: SoXAudioConversionJob): string {
    var f := job.outputFileFormatting;
    var arguments := BaseArguments(job);
    var withEndian := if f.endianness in SoXEndiannessNames
      then arguments + " " + SoXEndiannessOptionName + " " + SoXEndiannessNames[f.endianness]
      else arguments;
    var withEncoding := if f.encodingType in EncodingNames
      then withEndian + " " + SoXEncodingTypeOptionName + " " + EncodingNames[f.encodingType]
      else withEndian;
    withEncoding + " " + job.outputFilePath
  }

  /**
   * The argument list SoX is meant to receive: the input path, rate, bits and
   * channels, the byte order and the encoding when they have SoX names, and
   * the output path last.
   */
  function Tokens(job: SoXAudioConversionJob): (tokens: seq<string>)
    ensures 8 <= |tokens| <= 12
    ensures tokens[0] == job.inputFilePath && tokens[|tokens| - 1] == job.outputFilePath
    ensures tokens[1..7] == [SoXFrequencyOptionName, IntToString(job.outputFileFormatting.frequency),
                             SoXEncodingBitsOptionName, IntToString(job.outputFileFormatting.encodingBits),
                             SoXChannelsOptionName, IntToString(job.outputFileFormatting.channels)]
  {
    var f := job.outputFileFormatting;
    var base := BaseTokens(job);
    var options :=
      (if f.endianness in SoXEndiannessNames then [SoXEndiannessOptionName, SoXEndiannessNames[f.endianness]] else [])
      + (if f.encodingType in EncodingNames then [SoXEncodingTypeOptionName, EncodingNames[f.encodingType]] else []);
    var tokens := base + options + [job.outputFilePath];
    assert |base| == 7 && |options| <= 4;
    assert tokens[..7] == base;
    assert tokens[1..7] == base[1..7];
    tokens
  }

  function BaseTokens(job: SoXAudioConversionJob): seq<string> {
    var f := job.outputFileFormatting;
    [job.inputFilePath,
     SoXFrequencyOptionName, IntToString(f.frequency),
     SoXEncodingBitsOptionName, IntToString(f.encodingBits),
     SoXChannelsOptionName, IntToString(f.channels)]
  }

  /** The byte-order option appears exactly when the byte order has a SoX name, and always before the encoding. */
  lemma TokensOptionalParts(job: SoXAudioConversionJob)
    ensures var f := job.outputFileFormatting;
      && (f.endianness in SoXEndiannessNames <==> (exists k :: 7 <= k < |Tokens(job)| - 1 && Tokens(job)[k] == SoXEndiannessOptionName))
      && (f.encodingType in EncodingNames <==> (exists k :: 7 <= k < |Tokens(job)| - 1 && Tokens(job)[k] == SoXEncodingTypeOptionName))
      && (f.endianness in SoXEndiannessNames ==> Tokens(job)[7..9] == [SoXEndiannessOptionName, SoXEndiannessNames[f.endianness]])
      && (f.encodingType in EncodingNames ==>
            Tokens(job)[|Tokens(job)| - 3..|Tokens(job)| - 1] == [SoXEncodingTypeOptionName, EncodingNames[f.encodingType]])
  {
    var f := job.outputFileFormatting;
    var t := Tokens(job);
    forall k | 7 <= k < |t| - 1
      ensures t[k] != SoXEndiannessOptionName || f.endianness in SoXEndiannessNames
      ensures t[k] != SoXEncodingTypeOptionName || f.encodingType in EncodingNames
    {
      if f.endianness in SoXEndiannessNames && k < 9 {
      } else if f.encodingType in EncodingNames {
        assert t[k] in {SoXEncodingTypeOptionName, EncodingNames[f.encodingType]};
      }
    }
    if f.endianness in SoXEndiannessNames {
      assert t[7] == SoXEndiannessOptionName;
    }
    if f.encodingType in EncodingNames {
      assert t[|t| - 3] == SoXEncodingTypeOptionName;
    }
  }

  /** Tokens joined by single spaces, built up from the left as the job builds its string. */
  function Join(tokens: seq<string>): string
    requires |tokens| > 0
  {
    if |tokens| == 1 then tokens[0] else Join(tokens[..|tokens| - 1]) + " " + tokens[|tokens| - 1]
  }

  /** Splitting at every space, as a command line is split into arguments. */
  function Split(s: string): (parts: seq<string>)
    ensures |parts| > 0
    decreases |s|
  {
    if ' ' in s then
      var i := LastSpace(s);
      Split(s[..i]) + [s[i + 1..]]
    else [s]
  }

  function LastSpace(s: string): (i: nat)
    requires ' ' in s
    ensures i < |s| && s[i] == ' ' && ' ' !in s[i + 1..]
  {
    if s[|s| - 1] == ' ' then |s| - 1 else
      assert ' ' in s[..|s| - 1];
      var j := LastSpace(s[..|s| - 1]);
      assert s[j + 1..] == s[..|s| - 1][j + 1..] + [s[|s| - 1]];
      j
  }

  predicate NoSpaces(tokens: seq<string>) {
    forall k :: 0 <= k < |tokens| ==> ' ' !in tokens[k]
  }

  /** Joining tokens free of spaces and splitting the result gives the tokens back. */
  lemma {:induction false} SplitJoin(tokens: seq<string>)
    requires |tokens| > 0 && NoSpaces(tokens)
    ensures Split(Join(tokens)) == tokens
    decreases |tokens|
  {
    var n := |tokens|;
    if n > 1 {
      var s := Join(tokens);
      var init := Join(tokens[..n - 1]);
      var last := tokens[n - 1];
      assert s == init + " " + last;
      assert s[|init|] == ' ';
      assert s[|init| + 1..] == last;
      assert LastSpace(s) == |init|;
      assert s[..|init|] == init;
      SplitJoin(tokens[..n - 1]);
      assert tokens[..n - 1] + [last] == tokens;
    } else {
      assert ' ' !in tokens[0];
    }
  }

  lemma DecimalHasNoSpaces(i: int)
    ensures ' ' !in IntToString(i)
  {
    var s := IntToString(i);
    forall k | 0 <= k < |s| ensures s[k] != ' ' {
      if i < 0 && k > 0 {
        assert s[k] == s[1..][k - 1];
      }
    }
  }

  /** Appending a token to a joined list is joining the longer list. */
  lemma JoinSnoc(tokens: seq<string>, token: string)
    requires |tokens| > 0
    ensures Join(tokens + [token]) == Join(tokens) + " " + token
  {
    assert (tokens + [token])[..|tokens|] == tokens;
  }

  lemma BaseArgumentsAreJoinedTokens(job: SoXAudioConversionJob)
    ensures BaseArguments(job) == Join(BaseTokens(job))
  {
    var t := BaseTokens(job);
    JoinSnoc(t[..1], t[1]);
    assert t[..1] + [t[1]] == t[..2];
    JoinSnoc(t[..2], t[2]);
    assert t[..2] + [t[2]] == t[..3];
    JoinSnoc(t[..3], t[3]);
    assert t[..3] + [t[3]] == t[..4];
    JoinSnoc(t[..4], t[4]);
    assert t[..4] + [t[4]] == t[..5];
    JoinSnoc(t[..5], t[5]);
    assert t[..5] + [t[5]] == t[..6];
    JoinSnoc(t[..6], t[6]);
    assert t[..6] + [t[6]] == t;
  }

  /** The concatenation is the tokens joined by single spaces. */
  lemma ArgumentStringIsJoinedTokens(job: SoXAudioConversionJob)
    ensures ArgumentString(job) == Join(Tokens(job))
  {
    var f := job.outputFileFormatting;
    var base := BaseTokens(job);
    BaseArgumentsAreJoinedTokens(job);
    var withEndian := base;
    if f.endianness in SoXEndiannessNames {
      var option, name := SoXEndiannessOptionName, SoXEndiannessNames[f.endianness];
      JoinSnoc(base, option);
      JoinSnoc(base + [option], name);
      withEndian := base + [option] + [name];
    }
    var withEncoding := withEndian;
    if f.encodingType in EncodingNames {
      var option, name := SoXEncodingTypeOptionName, EncodingNames[f.encodingType];
      JoinSnoc(withEndian, option);
      JoinSnoc(withEndian + [option], name);
      withEncoding := withEndian + [option] + [name];
    }
    JoinSnoc(withEncoding, job.outputFilePath);
    assert Tokens(job) == withEncoding + [job.outputFilePath];
  }

  /**
   * When neither path contains a space, SoX receives exactly the intended
   * arguments.
   */
  lemma ArgumentsReachSoX(job: SoXAudioConversionJob)
    requires ' ' !in job.inputFilePath && ' ' !in job.outputFilePath
    ensures Split(ArgumentString(job)) == Tokens(job)
  {
    TokensHaveNoSpaces(job);
    ArgumentStringIsJoinedTokens(job);
    SplitJoin(Tokens(job));
  }

  lemma NoSpacesAppend(a: seq<string>, b: seq<string>)
    requires NoSpaces(a) && NoSpaces(b)
    ensures NoSpaces(a + b)
  {
    forall k | 0 <= k < |a + b| ensures ' ' !in (a + b)[k] {
      if k >= |a| {
        assert (a + b)[k] == b[k - |a|];
      }
    }
  }

  lemma EndiannessNameHasNoSpaces(e: EndiannessType)
    requires e in SoXEndiannessNames
    ensures ' ' !in SoXEndiannessNames[e]
  {
    match e
    case Little =>
    case Big =>
    case Swap =>
  }

  lemma EncodingNameHasNoSpaces(e: EncodingType)
    requires e in EncodingNames
    ensures ' ' !in EncodingNames[e]
  {
    match e
    case SignedInteger =>
    case UnsignedInteger =>
    case FloatingPoint =>
    case ALaw =>
    case ULaw =>
    case MuLaw =>
    case OkiAdpcm =>
    case ImaAdpcm =>
    case MsAdpcm =>
    case GSMFullRate =>
  }

  lemma BaseTokensHaveNoSpaces(job: SoXAudioConversionJob)
    requires ' ' !in job.inputFilePath
    ensures NoSpaces(BaseTokens(job))
  {
    var f := job.outputFileFormatting;
    DecimalHasNoSpaces(f.frequency);
    DecimalHasNoSpaces(f.encodingBits);
    DecimalHasNoSpaces(f.channels);
  }

  lemma TokensHaveNoSpaces(job: SoXAudioConversionJob)
    requires ' ' !in job.inputFilePath && ' ' !in job.outputFilePath
    ensures NoSpaces(Tokens(job))
  {
    var f := job.outputFileFormatting;
    BaseTokensHaveNoSpaces(job);
    var base := BaseTokens(job);
    var endian := if f.endianness in SoXEndiannessNames then [SoXEndiannessOptionName, SoXEndiannessNames[f.endianness]] else [];
    var encoding := if f.encodingType in EncodingNames then [SoXEncodingTypeOptionName, EncodingNames[f.encodingType]] else [];
    if f.endianness in SoXEndiannessNames {
      EndiannessNameHasNoSpaces(f.endianness);
    }
    if f.encodingType in EncodingNames {
      EncodingNameHasNoSpaces(f.encodingType);
    }
    assert NoSpaces(endian);
    assert NoSpaces(encoding);
    NoSpacesAppend(base, endian);
    NoSpacesAppend(base + endian, encoding);
    NoSpacesAppend(base + endian + encoding, [job.outputFilePath]);
    assert Tokens(job) == base + endian + encoding + [job.outputFilePath];
  }

  /**
   * Running the job: the previous error is cleared; without SoX there is a
   * "could not locate" error and no command is run; otherwise the command
   * runs and there is an error exactly when no output file appeared. Nothing
   * but the error message changes.
   */
  function ConvertAudio(job: SoXAudioConversionJob, soxExists: bool, outputFileAppears: bool)
    : (r: (SoXAudioConversionJob, Option<string>))
    ensures r.0 == job.(errorMessage := r.0.errorMessage)
    ensures !soxExists ==> r.1.None? && r.0.errorMessage == Some(SoXNotFoundMessage)
    ensures soxExists ==> r.1 == Some(ArgumentString(job))
    ensures soxExists ==> (r.0.errorMessage.None? <==> outputFileAppears)
    ensures soxExists && !outputFileAppears ==> r.0.errorMessage == Some(SoXFailedMessage)
  {
    var cleared := job.(errorMessage := None);
    if soxExists then
      var arguments := ArgumentString(cleared);
      if !outputFileAppears then (cleared.(errorMessage := Some(SoXFailedMessage)), Some(arguments))
      else (cleared, Some(arguments))
    else (cleared.(errorMessage := Some(SoXNotFoundMessage)), None)
  }

  /** The outcome does not depend on an error left over from an earlier run. */
  lemma ConvertAudioForgetsPreviousError(job: SoXAudioConversionJob, previous: Option<string>,
                                         soxExists: bool, outputFileAppears: bool)
    ensures ConvertAudio(job.(errorMessage := previous), soxExists, outputFileAppears)
         == ConvertAudio(job, soxExists, outputFileAppears)
  {
  }
}
