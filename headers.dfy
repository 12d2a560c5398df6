/**
 * The heading test the PDF cleanup uses to recognise a line that only
 * introduces the list or paragraph after it.
 */
module Headings {
  import opened Optional
  import opened JsText
  import opened Pattern

  /** The number of stand-alone headings. */
  const HeaderCount := 67

  /** The `k`-th stand-alone heading ChatGPT writes without a colon. */
  function CommonHeader(k: nat): string
    requires k < HeaderCount
  {
    [
    "Constraints", "Requirements", "Solution", "Approach", "Algorithm", "Pseudocode",
    "Complexity Analysis", "Time Complexity", "Space Complexity", "Example", "Input", "Output",
    "Discussion", "Summary", "Conclusion", "Implementation", "Steps", "Overview", "Explanation",
    "Analysis", "Pros and Cons", "Advantages", "Disadvantages", "Key Points", "Notes",
    "References", "Further Reading", "Resources", "Mathematical Proof", "Derivation",
    "Methodology", "Where", "Mathematically", "Code", "Function", "Method", "Class", "Object",
    "Data Structure", "Variables", "Constants", "Parameters", "Return Value", "Imports",
    "Exports", "API", "Interface", "Problem Statement", "Objective", "Goal", "Background",
    "Context", "Result", "Evaluation", "Testing", "Debug", "Error Handling", "Edge Cases",
    "Optimizations", "Performance", "Alternatives", "Tradeoffs", "Use Case", "Scenario",
    "Recommendations", "Next Steps", "Status"
    ][k]
  }

  /** A short line ending in a colon that is not itself a bullet or a dash item. */
  predicate ColonHeading(n: string) {
    EndsWith(n, ":") && |n| < 60 && !IsPrefix("•", n) && !IsPrefix("-", n)
  }

  predicate InVocabulary(n: string) {
    exists k :: 0 <= k < HeaderCount && (n == CommonHeader(k) || n == CommonHeader(k) + ":")
  }

  predicate NotLineTerminator(c: char) { !IsLineTerminator(c) }

  /**
   * Whether some split of the white-space run that starts at `start` leaves,
   * after its first `w'` characters (1 <= w' <= w), a tail of 3 to 25
   * characters on one line: the backtracking of `\s+.{3,25}$`.
   */
  predicate ShortTail(n: string, start: nat, w: nat)
    requires start + w <= |n|
    decreases w
  {
    w >= 1
    && ((3 <= |n| - (start + w) <= 25 && AllChars(n[start + w..], NotLineTerminator))
        || ShortTail(n, start, w - 1))
  }

  /** `/^\d+\.\s+.{3,25}$/`: a list number followed by a short title. */
  predicate NumberedTitle(n: string) {
    var d := RunLen(n, IsDigit);
    d >= 1 && d < |n| && n[d] == '.'
    && ShortTail(n, d + 1, RunLen(n[d + 1..], IsSpace))
  }

  /** `/^Step\s+\d+[:.]$/i`. */
  predicate StepLabel(n: string) {
    MatchLen(n, LitI("Step") + [Spaces(1), Digits(1), OneOf(":.")]) == Some(|n|)
  }

  const Uppercase := "ABCDEFGHIJKLMNOPQRSTUVWXYZ"

  /** `/^[1-9]\d*\.\s+[A-Z]/`: a numbered section whose title is capitalised. */
  predicate NumberedSection(n: string) {
    MatchesAtStart(n, [OneOf("123456789"), Digits(0), Ch('.'), Spaces(1), OneOf(Uppercase)])
  }

  /**
   * `/^[A-Z][a-z]+ing\s+the/`. The lower-case run after the capital must end
   * in `ing` (white space has to follow `ing`, and a lower-case letter is not
   * white space), and it must hold at least one letter before `ing`.
   */
  predicate GerundThe(n: string) {
    |n| >= 1 && IsUpper(n[0])
    && var l := RunLen(n[1..], IsLower);
    l >= 4 && n[l - 2..l + 1] == "ing"
    && MatchesAtStart(n[l + 1..], [Spaces(1), Ch('t'), Ch('h'), Ch('e')])
  }

  /** The heading rules, applied to trimmed text. */
  predicate IsHeading(n: string) {
    ColonHeading(n) || InVocabulary(n) || NumberedTitle(n) || StepLabel(n)
    || (IsPrefix("How to", n) && |n| < 60) || NumberedSection(n) || GerundThe(n)
  }

  /** Whether the text, once trimmed, reads as a heading. */
  predicate IsHeaderText(text: string) {
    IsHeading(Trim(text))
  }

  /** Leading and trailing white space do not change the verdict. */
  lemma HeaderTrim(text: string)
    ensures IsHeaderText(Trim(text)) == IsHeaderText(text)
  {
    var t := Trim(text);
    TrimOfTrimmed(t);
    assert Trim(t) == t;
  }

  /** A short trimmed line that ends in a colon is a heading unless it starts with a bullet or a dash. */
  lemma ColonLineIsHeader(text: string)
    requires EndsWith(Trim(text), ":") && |Trim(text)| < 60
    requires !IsPrefix("•", Trim(text)) && !IsPrefix("-", Trim(text))
    ensures IsHeaderText(text)
  {
  }

  /** A line that is, once trimmed, one of the stand-alone headings, with or without a colon, is a heading. */
  lemma VocabularyIsHeader(text: string, k: nat)
    requires k < HeaderCount
    requires Trim(text) == CommonHeader(k) || Trim(text) == CommonHeader(k) + ":"
    ensures IsHeaderText(text)
  {
  }
}
