/**
 * The error text both JSON parsers build: the message, preceded by
 * "(code) " when the response carries an error code. The reader is the
 * partner that shows the code and the message can be recovered.
 */
module ErrorText {
  import opened Wrappers
  import opened Decimal

  /** "(" + code + ") " + message, or just the message when there is no code. */
  function FormatError(code: Option<int>, message: string): (text: string)
    ensures code.None? ==> text == message
    ensures code.Some? ==> |text| > |message| + 3 && text[0] == '(' && text[|text| - |message|..] == message
  {
    match code
    case Some(c) => "(" + IntToString(c) + ") " + message
    case None => message
  }

  /** Position of the first `c` in `s`, or `|s|` when there is none. */
  function IndexOfChar(s: string, c: char): (i: nat)
    ensures i <= |s|
    ensures i < |s| ==> s[i] == c
    ensures forall k :: 0 <= k < i ==> s[k] != c
  {
    if |s| == 0 then 0
    else if s[0] == c then 0
    else 1 + IndexOfChar(s[1..], c)
  }

  /** A decimal integer as `Int32.ToString()` writes it. */
  predicate IsIntText(s: string) {
    && |s| > 0
    && (s[0] == '-' ==> AllDigits(s[1..]))
    && (s[0] != '-' ==> AllDigits(s))
  }

  /** Where the code ends, when the text starts with "(digits) ". */
  function CodeEnd(text: string): (k: nat)
    ensures k <= |text|
  {
    if |text| > 0 && text[0] == '(' then 1 + IndexOfChar(text[1..], ')') else |text|
  }

  /** The text starts with "(" + a decimal integer + ") ". */
  predicate HasCodePrefix(text: string) {
    var k := CodeEnd(text);
    && |text| > 0 && text[0] == '('
    && k + 1 < |text| && text[k] == ')' && text[k + 1] == ' '
    && IsIntText(text[1..k])
  }

  /** The error code an error text starts with, if any. */
  function CodeOf(text: string): (code: Option<int>)
    ensures code.Some? <==> HasCodePrefix(text)
  {
    if HasCodePrefix(text) then Some(ParseInt(text[1..CodeEnd(text)])) else None
  }

  /** The message of an error text: what follows the code prefix, if any. */
  function MessageOf(text: string): (message: string)
    ensures |message| <= |text|
  {
    if HasCodePrefix(text) then text[CodeEnd(text) + 2..] else text
  }

  lemma IntToStringHasNoParen(i: int)
    ensures forall k :: 0 <= k < |IntToString(i)| ==> IntToString(i)[k] != ')'
  {
    var s := IntToString(i);
    forall k | 0 <= k < |s| ensures s[k] != ')' {
      if i < 0 && k > 0 {
        assert s[k] == s[1..][k - 1];
      }
    }
  }

  /** An error text with a code gives back that code and the message unchanged. */
  lemma FormatErrorRoundTrip(code: int, message: string)
    ensures CodeOf(FormatError(Some(code), message)) == Some(code)
    ensures MessageOf(FormatError(Some(code), message)) == message
  {
    var digits := IntToString(code);
    var text := FormatError(Some(code), message);
    assert text == "(" + digits + ") " + message;
    IntToStringHasNoParen(code);
    var rest := text[1..];
    assert rest[|digits|] == ')';
    forall k | 0 <= k < |digits| ensures rest[k] != ')' {
      assert rest[k] == digits[k];
    }
    var j := IndexOfChar(rest, ')');
    assert !(j < |digits|);
    assert j == |digits|;
    assert CodeEnd(text) == 1 + |digits|;
    assert text[1..CodeEnd(text)] == digits;
    assert text[CodeEnd(text) + 2..] == message;
    ParseIntToString(code);
  }

  /** Whichever way it was built, an error text with a code reads back to that code and message. */
  lemma FormatErrorReadBack(code: Option<int>, message: string)
    ensures code.Some? ==> CodeOf(FormatError(code, message)) == code
    ensures code.Some? ==> MessageOf(FormatError(code, message)) == message
  {
    if code.Some? {
      FormatErrorRoundTrip(code.value, message);
    }
  }
}
