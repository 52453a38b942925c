/**
 * The string scoring utilities: the Levenshtein distance used to grade a
 * transcription against a reference phrase, and `TrimSpecialFormatting`, the
 * one-pass filter that strips vendor mark-up ("%HESITATION", "[pause]") and
 * redundant white space before the two strings are compared.
 */
module StringUtilities {
  import opened Chars

  // ---------------------------------------------------------------------
  // Levenshtein distance
  // ---------------------------------------------------------------------

  function Min(x: nat, y: nat): nat {
    if x <= y then x else y
  }

  function Max(x: nat, y: nat): nat {
    if x >= y then x else y
  }

  /**
   * Reference recurrence: the edit distance between the first `i` characters
   * of `a` and the first `j` characters of `b`, with unit-cost insertion,
   * deletion and substitution.
   */
  function EditDistance(a: string, b: string, i: nat, j: nat): nat
    requires i <= |a| && j <= |b|
    decreases i + j
  {
    if i == 0 then j
    else if j == 0 then i
    else
      var cost := if b[j - 1] == a[i - 1] then 0 else 1;
      Min(Min(EditDistance(a, b, i - 1, j) + 1, EditDistance(a, b, i, j - 1) + 1),
          EditDistance(a, b, i - 1, j - 1) + cost)
  }

  /** The distance `LevenshteinDistance` promises: the recurrence on the (optionally lowered) strings. */
  function Levenshtein(first: string, second: string, caseSensitive: bool): nat {
    var a := if caseSensitive then first else Lower(first);
    var b := if caseSensitive then second else Lower(second);
    EditDistance(a, b, |a|, |b|)
  }

  /**
   * The dynamic-programming table of the source, filled row by row: row 0 is
   * `0..n`, column 0 is the row number, and each further cell takes the
   * cheapest of deletion, insertion and (mis)match. Only the previous row is
   * kept, which is all any cell reads.
   */
  method LevenshteinDistance(firstString: string, secondString: string, caseSensitive: bool)
    returns (distance: nat)
    ensures distance == Levenshtein(firstString, secondString, caseSensitive)
    ensures !caseSensitive ==> distance == Levenshtein(Lower(firstString), Lower(secondString), true)
  {
    var a := firstString;
    var b := secondString;
    if !caseSensitive {
      a := Lower(a);
      b := Lower(b);
      LevenshteinCaseInsensitive(firstString, secondString);
    }
    distance := DistanceByRows(a, b);
  }

  /** The first `n` cells of row `i` of the table. */
  function Row(a: string, b: string, i: nat, n: nat): (r: seq<nat>)
    requires i <= |a| && n <= |b| + 1
    ensures |r| == n
  {
    if n == 0 then [] else Row(a, b, i, n - 1) + [EditDistance(a, b, i, n - 1)]
  }

  lemma {:induction false} RowCell(a: string, b: string, i: nat, n: nat, q: nat)
    requires i <= |a| && q < n <= |b| + 1
    ensures Row(a, b, i, n)[q] == EditDistance(a, b, i, q)
    decreases n
  {
    if q < n - 1 {
      RowCell(a, b, i, n - 1, q);
    }
  }

  /** Row 0 counts the insertions: cell `q` is `q`. */
  lemma RowZero(a: string, b: string, n: nat)
    requires n <= |b| + 1
    ensures Row(a, b, 0, n) == seq(n, q => q)
  {
    forall q | 0 <= q < n
      ensures Row(a, b, 0, n)[q] == q
    {
      RowCell(a, b, 0, n, q);
    }
  }

  /** The table's last cell, computed one row at a time. */
  method DistanceByRows(a: string, b: string) returns (distance: nat)
    ensures distance == EditDistance(a, b, |a|, |b|)
  {
    var previous: seq<nat> := seq(|b| + 1, q => q);
    RowZero(a, b, |b| + 1);
    for i := 1 to |a| + 1
      invariant previous == Row(a, b, i - 1, |b| + 1)
    {
      previous := NextRow(a, b, i, previous);
    }
    distance := previous[|b|];
    RowCell(a, b, |a|, |b| + 1, |b|);
  }

  /** Row `i` of the table, from row `i - 1`. */
  method NextRow(a: string, b: string, i: nat, previous: seq<nat>) returns (current: seq<nat>)
    requires 1 <= i <= |a| && previous == Row(a, b, i - 1, |b| + 1)
    ensures current == Row(a, b, i, |b| + 1)
  {
    current := [i];
    assert current == Row(a, b, i, 1);
    for j := 1 to |b| + 1
      invariant current == Row(a, b, i, j)
    {
      var cost := if b[j - 1] == a[i - 1] then 0 else 1;
      var cell := Min(Min(previous[j] + 1, current[j - 1] + 1), previous[j - 1] + cost);
      RowStep(a, b, i, j, previous, current, cell);
      current := current + [cell];
    }
  }

  /** The cell the source computes from its three neighbours is the next cell of the row. */
  lemma RowStep(a: string, b: string, i: nat, j: nat, previous: seq<nat>, current: seq<nat>, cell: nat)
    requires 1 <= i <= |a| && 1 <= j <= |b|
    requires previous == Row(a, b, i - 1, |b| + 1) && current == Row(a, b, i, j)
    requires cell == Min(Min(previous[j] + 1, current[j - 1] + 1), previous[j - 1] + if b[j - 1] == a[i - 1] then 0 else 1)
    ensures current + [cell] == Row(a, b, i, j + 1)
  {
    var up, left, diagonal := previous[j], current[j - 1], previous[j - 1];
    RowCell(a, b, i - 1, |b| + 1, j);
    RowCell(a, b, i - 1, |b| + 1, j - 1);
    RowCell(a, b, i, j, j - 1);
    CellFromNeighbours(a, b, i, j, up, left, diagonal);
    RowGrows(a, b, i, j, cell);
  }

  /** Appending the next cell extends the row by one. */
  lemma RowGrows(a: string, b: string, i: nat, j: nat, cell: nat)
    requires 1 <= i <= |a| && 1 <= j <= |b|
    requires cell == EditDistance(a, b, i, j)
    ensures Row(a, b, i, j) + [cell] == Row(a, b, i, j + 1)
  {
  }

  /** One cell of the table from the cells above, to the left and diagonally above-left. */
  lemma CellFromNeighbours(a: string, b: string, i: nat, j: nat, up: nat, left: nat, diagonal: nat)
    requires 1 <= i <= |a| && 1 <= j <= |b|
    requires up == EditDistance(a, b, i - 1, j) && left == EditDistance(a, b, i, j - 1)
    requires diagonal == EditDistance(a, b, i - 1, j - 1)
    ensures EditDistance(a, b, i, j) == Min(Min(up + 1, left + 1), diagonal + if b[j - 1] == a[i - 1] then 0 else 1)
  {
  }

  /** Every string is at distance 0 from itself: the diagonal of the table is all zeros. */
  lemma {:induction false} DiagonalIsZero(a: string, i: nat)
    requires i <= |a|
    ensures EditDistance(a, a, i, i) == 0
  {
    if i > 0 {
      DiagonalIsZero(a, i - 1);
    }
  }

  lemma LevenshteinIdentity(s: string, caseSensitive: bool)
    ensures Levenshtein(s, s, caseSensitive) == 0
  {
    var a := if caseSensitive then s else Lower(s);
    DiagonalIsZero(a, |a|);
  }

  /** Row 0 and column 0: the distance to the empty string is the other string's length. */
  lemma LevenshteinEmpty(s: string, caseSensitive: bool)
    ensures Levenshtein(s, "", caseSensitive) == |s|
    ensures Levenshtein("", s, caseSensitive) == |s|
  {
  }

  lemma {:induction false} EditDistanceSymmetric(a: string, b: string, i: nat, j: nat)
    requires i <= |a| && j <= |b|
    ensures EditDistance(a, b, i, j) == EditDistance(b, a, j, i)
    decreases i + j
  {
    if i > 0 && j > 0 {
      var cost := if b[j - 1] == a[i - 1] then 0 else 1;
      EditDistanceSymmetric(a, b, i - 1, j);
      EditDistanceSymmetric(a, b, i, j - 1);
      EditDistanceSymmetric(a, b, i - 1, j - 1);
      var del, ins, sub := EditDistance(a, b, i - 1, j), EditDistance(a, b, i, j - 1), EditDistance(a, b, i - 1, j - 1);
      assert EditDistance(a, b, i, j) == Min(Min(del + 1, ins + 1), sub + cost);
      assert EditDistance(b, a, j, i) == Min(Min(ins + 1, del + 1), sub + cost);
    }
  }

  lemma LevenshteinSymmetric(s: string, t: string, caseSensitive: bool)
    ensures Levenshtein(s, t, caseSensitive) == Levenshtein(t, s, caseSensitive)
  {
    var a := if caseSensitive then s else Lower(s);
    var b := if caseSensitive then t else Lower(t);
    EditDistanceSymmetric(a, b, |a|, |b|);
  }

  /** The distance lies between the length difference and the longer length. */
  /** No more edits are needed than replacing the shorter prefix and inserting the rest. */
  lemma {:induction false} EditDistanceUpperBound(a: string, b: string, i: nat, j: nat)
    requires i <= |a| && j <= |b|
    ensures EditDistance(a, b, i, j) <= Max(i, j)
    decreases i + j
  {
    if i > 0 && j > 0 {
      EditDistanceUpperBound(a, b, i - 1, j - 1);
    }
  }

  /** At least the difference in length must be inserted or deleted. */
  lemma {:induction false} EditDistanceLowerBound(a: string, b: string, i: nat, j: nat)
    requires i <= |a| && j <= |b|
    ensures EditDistance(a, b, i, j) >= i - j && EditDistance(a, b, i, j) >= j - i
    decreases i + j
  {
    if i > 0 && j > 0 {
      EditDistanceLowerBound(a, b, i - 1, j);
      EditDistanceLowerBound(a, b, i, j - 1);
      EditDistanceLowerBound(a, b, i - 1, j - 1);
    }
  }

  lemma LevenshteinBounds(s: string, t: string, caseSensitive: bool)
    ensures Levenshtein(s, t, caseSensitive) <= Max(|s|, |t|)
    ensures Levenshtein(s, t, caseSensitive) >= |s| - |t|
    ensures Levenshtein(s, t, caseSensitive) >= |t| - |s|
  {
    var a := if caseSensitive then s else Lower(s);
    var b := if caseSensitive then t else Lower(t);
    EditDistanceUpperBound(a, b, |a|, |b|);
    EditDistanceLowerBound(a, b, |a|, |b|);
  }

  /** The default case-insensitive distance is the case-sensitive distance of the lowered strings. */
  lemma LevenshteinCaseInsensitive(s: string, t: string)
    ensures Levenshtein(s, t, false) == Levenshtein(Lower(s), Lower(t), true)
    ensures Levenshtein(s, t, false) == Levenshtein(Lower(s), Lower(t), false)
  {
    LowerIdempotent(s);
    LowerIdempotent(t);
  }

  // ---------------------------------------------------------------------
  // Subsequences
  // ---------------------------------------------------------------------

  /** `o` can be obtained from `s` by deleting characters. */
  ghost predicate IsSubsequence(o: string, s: string)
    decreases |s|
  {
    || |o| == 0
    || (&& |s| > 0
        && (|| (o[|o| - 1] == s[|s| - 1] && IsSubsequence(o[..|o| - 1], s[..|s| - 1]))
            || IsSubsequence(o, s[..|s| - 1])))
  }

  lemma SubsequenceExtend(o: string, s: string, c: char)
    requires IsSubsequence(o, s)
    ensures IsSubsequence(o, s + [c])
    ensures IsSubsequence(o + [c], s + [c])
  {
    assert (s + [c])[..|s|] == s;
    assert (o + [c])[..|o|] == o;
  }

  lemma {:induction false} SubsequenceWeaken(o: string, s: string, t: string)
    requires IsSubsequence(o, s)
    ensures IsSubsequence(o, s + t)
    decreases |t|
  {
    if |t| == 0 {
      assert s + t == s;
    } else {
      var u, c := s + t[..|t| - 1], t[|t| - 1];
      assert u + [c] == s + t;
      SubsequenceWeaken(o, s, t[..|t| - 1]);
      SubsequenceExtend(o, u, c);
    }
  }

  lemma {:induction false} SubsequenceDropLast(o: string, s: string)
    requires |o| > 0 && IsSubsequence(o, s)
    ensures IsSubsequence(o[..|o| - 1], s)
    decreases |s|
  {
    var s' := s[..|s| - 1];
    assert s' + [s[|s| - 1]] == s;
    if o[|o| - 1] == s[|s| - 1] && IsSubsequence(o[..|o| - 1], s') {
      SubsequenceExtend(o[..|o| - 1], s', s[|s| - 1]);
    } else {
      SubsequenceDropLast(o, s');
      SubsequenceExtend(o[..|o| - 1], s', s[|s| - 1]);
    }
  }

  lemma {:induction false} SubsequenceDropFirst(o: string, s: string)
    requires |o| > 0 && IsSubsequence(o, s)
    ensures IsSubsequence(o[1..], s)
    decreases |s|
  {
    if |o| > 1 {
      var s' := s[..|s| - 1];
      assert s' + [s[|s| - 1]] == s;
      if o[|o| - 1] == s[|s| - 1] && IsSubsequence(o[..|o| - 1], s') {
        SubsequenceDropFirst(o[..|o| - 1], s');
        assert o[..|o| - 1][1..] == o[1..][..|o[1..]| - 1];
        SubsequenceExtend(o[1..][..|o[1..]| - 1], s', s[|s| - 1]);
        assert o[1..][..|o[1..]| - 1] + [s[|s| - 1]] == o[1..];
      } else {
        SubsequenceDropFirst(o, s');
        SubsequenceExtend(o[1..], s', s[|s| - 1]);
      }
    }
  }

  /** Any contiguous slice of a subsequence is again a subsequence. */
  lemma {:induction false} SubsequenceSlice(o: string, s: string, lo: nat, hi: nat)
    requires lo <= hi <= |o| && IsSubsequence(o, s)
    ensures IsSubsequence(o[lo..hi], s)
    decreases |o|
  {
    if hi < |o| {
      SubsequenceDropLast(o, s);
      SubsequenceSlice(o[..|o| - 1], s, lo, hi);
      assert o[..|o| - 1][lo..hi] == o[lo..hi];
    } else if lo > 0 {
      SubsequenceDropFirst(o, s);
      SubsequenceSlice(o[1..], s, lo - 1, hi - 1);
      assert o[1..][lo - 1..hi - 1] == o[lo..hi];
    } else {
      assert o[lo..hi] == o;
    }
  }

  lemma SliceIsSubsequence(o: string, s: string, lo: nat, hi: nat, r: string)
    requires lo <= hi <= |o| && r == o[lo..hi] && IsSubsequence(o, s)
    ensures IsSubsequence(r, s)
  {
    SubsequenceSlice(o, s, lo, hi);
  }

  // ---------------------------------------------------------------------
  // TrimSpecialFormatting
  // ---------------------------------------------------------------------

  /** The caller's choices: which characters, words and bracketed spans to strip. */
  datatype TrimOptions = TrimOptions(
    charsToRemove: set<char>,
    leadingCharsForWordsToRemove: set<char>,
    surroundingCharsForTextToRemove: map<char, char>,
    removeAllNonAlphanumericOrWhitespaceChars: bool,
    removeExtraWhitespace: bool)

  /** The character that ends a word to remove. */
  const WordSeparator: char := ' '

  /** The loop variables of the filter, including the output built so far. */
  datatype ScanState = ScanState(
    ignoringWhitespace: bool,
    inWordToRemove: bool,
    lastAddedChar: char,
    inTextToRemove: bool,
    endCharForTextToRemove: char,
    output: string)

  const InitialScan: ScanState := ScanState(false, false, WordSeparator, false, '\0', "")

  /** Whether character `c` survives the character-class filters. */
  predicate Keepable(opts: TrimOptions, c: char) {
    && c !in opts.charsToRemove
    && (!opts.removeAllNonAlphanumericOrWhitespaceChars || IsLetterOrDigit(c) || IsWhiteSpace(c))
  }

  /** Whether `c` starts a word to remove at loop index `i`. */
  predicate StartsWordToRemove(opts: TrimOptions, i: nat, st: ScanState, c: char) {
    c in opts.leadingCharsForWordsToRemove && (i == 0 || st.lastAddedChar == WordSeparator)
  }

  /** Whether the filter looks further at `c` at all, outside a bracketed span. */
  predicate Considered(st: ScanState, c: char) {
    !(st.inWordToRemove && c != WordSeparator) && (!st.ignoringWhitespace || !IsWhiteSpace(c))
  }

  /** The white-space bookkeeping after a kept character `c`. */
  function IgnoreAfter(opts: TrimOptions, ignoring: bool, c: char): bool {
    if !ignoring && IsWhiteSpace(c) && opts.removeExtraWhitespace then true
    else if ignoring && !IsWhiteSpace(c) then false
    else ignoring
  }

  /** One iteration of the filter loop, on character `input[i]`. */
  function Step(opts: TrimOptions, input: string, i: nat, st: ScanState): ScanState
    requires i < |input|
  {
    var c := input[i];
    if st.inTextToRemove then
      if c == st.endCharForTextToRemove then st.(inTextToRemove := false) else st
    else if !Considered(st, c) then
      st.(inWordToRemove := st.inWordToRemove && c != WordSeparator)
    else if c in opts.surroundingCharsForTextToRemove then
      st.(inWordToRemove := false, inTextToRemove := true,
          endCharForTextToRemove := opts.surroundingCharsForTextToRemove[c])
    else if StartsWordToRemove(opts, i, st, c) then
      st.(inWordToRemove := true)
    else if Keepable(opts, c) then
      // Considered(st, c) already rules out an ignored white-space character.
      st.(inWordToRemove := false, output := st.output + [c], lastAddedChar := c,
          ignoringWhitespace := IgnoreAfter(opts, st.ignoringWhitespace, c))
    else
      st.(inWordToRemove := false)
  }

  /** The filter loop over indices `i` up to (excluding) `stop`. */
  function Scan(opts: TrimOptions, input: string, i: nat, stop: nat, st: ScanState): ScanState
    requires stop <= |input|
    decreases stop - i
  {
    if i >= stop then st else Scan(opts, input, i + 1, stop, Step(opts, input, i, st))
  }

  /** Index of the first character the loop looks at. */
  function StartIndex(opts: TrimOptions, input: string): nat {
    if opts.removeExtraWhitespace then LeadingWhiteSpace(input) else 0
  }

  /** One past the index of the last character the loop looks at. */
  function StopIndex(opts: TrimOptions, input: string): (stop: nat)
    ensures stop <= |input|
  {
    if opts.removeExtraWhitespace then |TrimEnd(input)| else |input|
  }

  ghost predicate NoAdjacentWhiteSpace(s: string) {
    forall k :: 0 < k < |s| ==> !(IsWhiteSpace(s[k - 1]) && IsWhiteSpace(s[k]))
  }

  /**
   * What the filter promises about the characters it keeps: none is a
   * character to remove, an opening bracket, or (optionally) punctuation;
   * no word-removal character follows a space; and (optionally) white space
   * is never doubled.
   */
  ghost predicate FilteredOutput(opts: TrimOptions, out: string) {
    && (forall k :: 0 <= k < |out| ==> Keepable(opts, out[k]))
    && (forall k :: 0 <= k < |out| ==> out[k] !in opts.surroundingCharsForTextToRemove)
    && (forall k :: 0 < k < |out| && out[k] in opts.leadingCharsForWordsToRemove ==> out[k - 1] != WordSeparator)
    && (opts.removeExtraWhitespace ==> NoAdjacentWhiteSpace(out))
  }

  /** The loop invariant of the filter after it has looked at `input[..i]`. */
  ghost predicate ScanInvariant(opts: TrimOptions, input: string, i: nat, st: ScanState)
    requires i <= |input|
  {
    && IsSubsequence(st.output, input[..i])
    && FilteredOutput(opts, st.output)
    && (|st.output| > 0 ==> st.output[0] !in opts.leadingCharsForWordsToRemove)
    && st.lastAddedChar == (if |st.output| == 0 then WordSeparator else st.output[|st.output| - 1])
    && (opts.removeExtraWhitespace ==>
          (st.ignoringWhitespace <==> |st.output| > 0 && IsWhiteSpace(st.output[|st.output| - 1])))
    && (!opts.removeExtraWhitespace ==> !st.ignoringWhitespace)
  }

  /** Appending a character the filter lets through keeps the output filtered. */
  lemma AppendKeepsFiltered(opts: TrimOptions, out: string, c: char)
    requires FilteredOutput(opts, out)
    requires Keepable(opts, c) && c !in opts.surroundingCharsForTextToRemove
    requires c in opts.leadingCharsForWordsToRemove ==> |out| > 0 && out[|out| - 1] != WordSeparator
    requires opts.removeExtraWhitespace && IsWhiteSpace(c) && |out| > 0 ==> !IsWhiteSpace(out[|out| - 1])
    ensures FilteredOutput(opts, out + [c])
  {
    var r := out + [c];
    forall k | 0 <= k < |out| ensures r[k] == out[k] { }
  }

  /** A step that keeps its character preserves the invariant. */
  lemma AppendStepKeepsInvariant(opts: TrimOptions, input: string, i: nat, st: ScanState)
    requires i < |input| && ScanInvariant(opts, input, i, st)
    requires && !st.inTextToRemove && Considered(st, input[i])
             && input[i] !in opts.surroundingCharsForTextToRemove
             && !StartsWordToRemove(opts, i, st, input[i]) && Keepable(opts, input[i])
    ensures ScanInvariant(opts, input, i + 1, Step(opts, input, i, st))
  {
    var c := input[i];
    assert input[..i + 1] == input[..i] + [c];
    SubsequenceExtend(st.output, input[..i], c);
    AppendKeepsFiltered(opts, st.output, c);
    var st' := Step(opts, input, i, st);
    assert st'.output == st.output + [c];
    assert |st.output| > 0 ==> st'.output[0] == st.output[0];
  }

  lemma StepKeepsInvariant(opts: TrimOptions, input: string, i: nat, st: ScanState)
    requires i < |input| && ScanInvariant(opts, input, i, st)
    ensures ScanInvariant(opts, input, i + 1, Step(opts, input, i, st))
  {
    var c := input[i];
    if && !st.inTextToRemove && Considered(st, c)
       && c !in opts.surroundingCharsForTextToRemove
       && !StartsWordToRemove(opts, i, st, c) && Keepable(opts, c)
    {
      AppendStepKeepsInvariant(opts, input, i, st);
    } else {
      var st' := Step(opts, input, i, st);
      assert st'.output == st.output && st'.lastAddedChar == st.lastAddedChar;
      assert st'.ignoringWhitespace == st.ignoringWhitespace;
      assert input[..i + 1] == input[..i] + [c];
      SubsequenceExtend(st.output, input[..i], c);
    }
  }

  lemma {:induction false} ScanKeepsInvariant(opts: TrimOptions, input: string, i: nat, stop: nat, st: ScanState)
    requires i <= stop <= |input| && ScanInvariant(opts, input, i, st)
    ensures ScanInvariant(opts, input, stop, Scan(opts, input, i, stop, st))
    decreases stop - i
  {
    if i < stop {
      StepKeepsInvariant(opts, input, i, st);
      ScanKeepsInvariant(opts, input, i + 1, stop, Step(opts, input, i, st));
    }
  }

  /** The loop state after the filter has run over the input. */
  function FinalScan(input: string, opts: TrimOptions): ScanState {
    var start := StartIndex(opts, input);
    var stop := StopIndex(opts, input);
    if start <= stop then Scan(opts, input, start, stop, InitialScan) else InitialScan
  }

  /** The scan between the two skipped ends keeps the invariant over the whole input. */
  lemma ScanBetweenKeepsInvariant(input: string, opts: TrimOptions, start: nat, stop: nat)
    requires start <= stop <= |input|
    ensures ScanInvariant(opts, input, |input|, Scan(opts, input, start, stop, InitialScan))
  {
    var st := Scan(opts, input, start, stop, InitialScan);
    assert ScanInvariant(opts, input, start, InitialScan);
    ScanKeepsInvariant(opts, input, start, stop, InitialScan);
    SubsequenceWeaken(st.output, input[..stop], input[stop..]);
    assert input[..stop] + input[stop..] == input[..|input|];
  }

  lemma FinalScanKeepsInvariant(input: string, opts: TrimOptions)
    ensures ScanInvariant(opts, input, |input|, FinalScan(input, opts))
  {
    var start := StartIndex(opts, input);
    var stop := StopIndex(opts, input);
    if start <= stop {
      ScanBetweenKeepsInvariant(input, opts, start, stop);
    } else {
      assert ScanInvariant(opts, input, |input|, InitialScan);
    }
  }

  /**
   * The filter as written: optionally skip white space at both ends of the
   * input, then run the loop over what is left.
   */
  function TrimSpecialFormatting(input: string, opts: TrimOptions): (output: string)
    ensures |input| == 0 ==> output == ""
    ensures IsSubsequence(output, input)
    ensures FilteredOutput(opts, output)
    ensures |output| > 0 ==> output[0] !in opts.leadingCharsForWordsToRemove
  {
    if |input| > 0 then
      var st := FinalScan(input, opts);
      FinalScanKeepsInvariant(input, opts);
      assert input[..|input|] == input;
      st.output
    else ""
  }

  /**
   * Once inside a span opened by a surrounding character, every character up
   * to and including the matching close character is dropped.
   */
  lemma {:induction false} TextToRemoveContributesNothing(
    opts: TrimOptions, input: string, i: nat, close: nat, st: ScanState)
    requires i <= close < |input|
    requires st.inTextToRemove
    requires forall m :: i <= m < close ==> input[m] != st.endCharForTextToRemove
    requires input[close] == st.endCharForTextToRemove
    ensures Scan(opts, input, i, close + 1, st).output == st.output
    ensures !Scan(opts, input, i, close + 1, st).inTextToRemove
    decreases close - i
  {
    if i < close {
      TextToRemoveContributesNothing(opts, input, i + 1, close, Step(opts, input, i, st));
    }
  }

  /**
   * A whole span from an opening surrounding character through its matching
   * close character adds nothing to the output.
   */
  lemma SurroundedTextRemoved(opts: TrimOptions, input: string, open: nat, close: nat, st: ScanState)
    requires open < close < |input|
    requires !st.inTextToRemove && Considered(st, input[open])
    requires input[open] in opts.surroundingCharsForTextToRemove
    requires forall m :: open < m < close ==> input[m] != opts.surroundingCharsForTextToRemove[input[open]]
    requires input[close] == opts.surroundingCharsForTextToRemove[input[open]]
    ensures Scan(opts, input, open, close + 1, st).output == st.output
  {
    TextToRemoveContributesNothing(opts, input, open + 1, close, Step(opts, input, open, st));
  }

  // ---------------------------------------------------------------------
  // Surrounding white space
  // ---------------------------------------------------------------------

  /** Input with no white space at either end is scanned from its first to its last character. */
  lemma NoSurroundingWhiteSpaceScansAll(input: string, opts: TrimOptions)
    requires |input| > 0 && !IsWhiteSpace(input[0]) && !IsWhiteSpace(input[|input| - 1])
    ensures TrimSpecialFormatting(input, opts) == Scan(opts, input, 0, |input|, InitialScan).output
  {
    assert TrimStart(input) == input;
    assert TrimEnd(input) == input;
  }

  // ---------------------------------------------------------------------
  // What the filter keeps
  // ---------------------------------------------------------------------

  /**
   * Text the filter has nothing to strip from: every character passes the
   * character-class filters and opens neither a span nor a word to remove,
   * and, when extra white space is to be removed, no white space is doubled
   * or sits at either end.
   */
  ghost predicate Plain(opts: TrimOptions, s: string) {
    && (forall k :: 0 <= k < |s| ==> Keepable(opts, s[k]))
    && (forall k :: 0 <= k < |s| ==> s[k] !in opts.surroundingCharsForTextToRemove)
    && (forall k :: 0 <= k < |s| ==> s[k] !in opts.leadingCharsForWordsToRemove)
    && (opts.removeExtraWhitespace ==> NoAdjacentWhiteSpace(s))
    && (opts.removeExtraWhitespace && |s| > 0 ==> !IsWhiteSpace(s[0]) && !IsWhiteSpace(s[|s| - 1]))
  }

  /** The loop state after the filter has copied `s[..i]` unchanged. */
  ghost predicate CopiedSoFar(opts: TrimOptions, s: string, i: nat, st: ScanState)
    requires i <= |s|
  {
    && !st.inTextToRemove && !st.inWordToRemove
    && st.output == s[..i]
    && st.lastAddedChar == (if i == 0 then WordSeparator else s[i - 1])
    && (st.ignoringWhitespace <==> opts.removeExtraWhitespace && i > 0 && IsWhiteSpace(s[i - 1]))
  }

  lemma {:induction false} ScanCopiesPlain(opts: TrimOptions, s: string, i: nat, st: ScanState)
    requires i <= |s| && Plain(opts, s) && CopiedSoFar(opts, s, i, st)
    ensures Scan(opts, s, i, |s|, st).output == s
    decreases |s| - i
  {
    if i < |s| {
      var next := Step(opts, s, i, st);
      assert s[..i + 1] == s[..i] + [s[i]];
      assert i > 0 && opts.removeExtraWhitespace ==> !(IsWhiteSpace(s[i - 1]) && IsWhiteSpace(s[i]));
      assert next.output == s[..i + 1];
      ScanCopiesPlain(opts, s, i + 1, next);
    } else {
      assert s[..i] == s;
    }
  }

  /** The filter leaves text with nothing to strip unchanged. */
  lemma KeepsPlainText(s: string, opts: TrimOptions)
    requires Plain(opts, s)
    ensures TrimSpecialFormatting(s, opts) == s
  {
    if |s| > 0 {
      assert CopiedSoFar(opts, s, 0, InitialScan);
      ScanCopiesPlain(opts, s, 0, InitialScan);
      if opts.removeExtraWhitespace {
        NoSurroundingWhiteSpaceScansAll(s, opts);
      }
    }
  }

  /** The widgets' formatting rules: drop "%words" and "[spans]". */
  function BracketOptions(): (opts: TrimOptions)
    ensures opts.removeExtraWhitespace && opts.removeAllNonAlphanumericOrWhitespaceChars
    ensures '[' in opts.surroundingCharsForTextToRemove
  {
    TrimOptions({}, {'%'}, map['[' := ']'], true, true)
  }

  /**
   * The loop skips white space at the ends of the input, not at the ends of
   * the output: a span removed next to a space leaves that space behind.
   */
  lemma LeadingSpaceSurvives()
    ensures TrimSpecialFormatting("[] a", BracketOptions()) == " a"
  {
    var opts := BracketOptions();
    var input := "[] a";
    var s1 := ScanState(false, false, ' ', true, ']', "");
    var s2 := ScanState(false, false, ' ', false, ']', "");
    var s3 := ScanState(true, false, ' ', false, ']', " ");
    var s4 := ScanState(false, false, 'a', false, ']', " a");
    assert Step(opts, input, 0, InitialScan) == s1;
    assert Step(opts, input, 1, s1) == s2;
    assert Step(opts, input, 2, s2) == s3;
    assert Step(opts, input, 3, s3) == s4;
    assert Scan(opts, input, 0, 4, InitialScan) == s4;
    NoSurroundingWhiteSpaceScansAll(input, opts);
  }

  lemma TrailingSpaceSurvives()
    ensures TrimSpecialFormatting("a []", BracketOptions()) == "a "
  {
    var opts := BracketOptions();
    var input := "a []";
    var s1 := ScanState(false, false, 'a', false, '\0', "a");
    var s2 := ScanState(true, false, ' ', false, '\0', "a ");
    var s3 := ScanState(true, false, ' ', true, ']', "a ");
    var s4 := ScanState(true, false, ' ', false, ']', "a ");
    assert Step(opts, input, 0, InitialScan) == s1;
    assert Step(opts, input, 1, s1) == s2;
    assert Step(opts, input, 2, s2) == s3;
    assert Step(opts, input, 3, s3) == s4;
    assert Scan(opts, input, 0, 4, InitialScan) == s4;
    NoSurroundingWhiteSpaceScansAll(input, opts);
  }

  /** A slice of filtered output is filtered output. */
  lemma SliceKeepsFiltered(opts: TrimOptions, out: string, lo: nat, hi: nat, r: string)
    requires lo <= hi <= |out| && r == out[lo..hi] && FilteredOutput(opts, out)
    ensures FilteredOutput(opts, r)
  {
    forall k | 0 <= k < |r| ensures r[k] == out[lo + k] { }
  }

  /**
   * The filter as documented: with `removeExtraWhitespace` the result also
   * carries no white space at either end.
   */
  function TrimSpecialFormattingCorrected(input: string, opts: TrimOptions): (output: string)
    ensures |input| == 0 ==> output == ""
    ensures IsSubsequence(output, input)
    ensures FilteredOutput(opts, output)
    ensures opts.removeExtraWhitespace && |output| > 0 ==>
              !IsWhiteSpace(output[0]) && !IsWhiteSpace(output[|output| - 1])
    ensures !opts.removeExtraWhitespace ==> output == TrimSpecialFormatting(input, opts)
  {
    var written := TrimSpecialFormatting(input, opts);
    if opts.removeExtraWhitespace then
      TrimKeepsSubsequence(written, input);
      TrimKeepsFiltered(opts, written);
      Trim(written)
    else written
  }

  /** Trimming a subsequence of `input` leaves a subsequence of `input`. */
  lemma TrimKeepsSubsequence(out: string, input: string)
    requires IsSubsequence(out, input)
    ensures IsSubsequence(Trim(out), input)
  {
    var lo, hi := TrimIsSlice(out);
    SliceIsSubsequence(out, input, lo, hi, Trim(out));
  }

  /** Trimming filtered output leaves filtered output. */
  lemma TrimKeepsFiltered(opts: TrimOptions, out: string)
    requires FilteredOutput(opts, out)
    ensures FilteredOutput(opts, Trim(out))
  {
    var lo, hi := TrimIsSlice(out);
    SliceKeepsFiltered(opts, out, lo, hi, Trim(out));
  }

  /** The correction only removes white space from the ends of what the loop produced. */
  lemma CorrectedIsTrimmedAsWritten(input: string, opts: TrimOptions)
    ensures opts.removeExtraWhitespace ==>
              TrimSpecialFormattingCorrected(input, opts) == Trim(TrimSpecialFormatting(input, opts))
  {
  }
}
