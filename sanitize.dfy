/**
 * The content script's text helpers: the PDF sanitizer, the noise filter for
 * extracted text, the vocabulary of code-block captions that are user
 * interface rather than content, the language of a code block read from its
 * class list, and the conversation title read from the page title.
 */
module PageText {
  import opened Optional
  import opened JsText

  // ---------------------------------------------------------------------------
  // sanitizeTextForPDF
  // ---------------------------------------------------------------------------

  /** Text containing one of these is taken for script source and dropped. */
  predicate HasScriptMarker(text: string) {
    Contains(text, "window.") || Contains(text, "document.") || Contains(text, "function(")
  }

  predicate NotPrintable(c: char) { !IsPrintableAscii(c) }


  /**
   * Empty for empty or script-like text; otherwise every run of characters
   * outside printable ASCII becomes one space, every white-space run becomes
   * one space, and the ends are trimmed.
   */
  function Sanitize(text: string): (r: string)
    ensures text == [] || HasScriptMarker(text) ==> r == []
    ensures AllChars(r, IsPrintableAscii)
    ensures IsTrimmed(r)
    ensures NoAdjacent(r, IsSpace)
    ensures !HasScriptMarker(r)
  {
    if text == [] || HasScriptMarker(text) then []
    else
      var printable := ReplaceRuns(text, NotPrintable, " ");
      var collapsed := ReplaceRuns(printable, IsSpace, " ");
      SanitizeSteps(text, printable, collapsed);
      Trim(collapsed)
  }

  lemma SanitizeSteps(text: string, printable: string, collapsed: string)
    requires !HasScriptMarker(text)
    requires printable == ReplaceRuns(text, NotPrintable, " ")
    requires collapsed == ReplaceRuns(printable, IsSpace, " ")
    ensures AllChars(Trim(collapsed), IsPrintableAscii)
    ensures NoAdjacent(Trim(collapsed), IsSpace)
    ensures !HasScriptMarker(Trim(collapsed))
  {
    assert AllChars(printable, IsPrintableAscii);
    assert AllChars(collapsed, IsPrintableAscii);
    ReplaceRunsNoAdjacent(printable, IsSpace, ' ');
    TrimKeepsAll(collapsed, IsPrintableAscii);
    TrimNoAdjacent(collapsed, IsSpace);
    NoMarkerCreated(text);
  }

  lemma NoMarkerCreated(text: string)
    requires !HasScriptMarker(text)
    ensures !HasScriptMarker(Trim(ReplaceRuns(ReplaceRuns(text, NotPrintable, " "), IsSpace, " ")))
  {
    MarkerChars();
    MarkerNotCreated(text, "window.");
    MarkerNotCreated(text, "document.");
    MarkerNotCreated(text, "function(");
  }

  predicate IsMarkerChar(c: char) { IsPrintableAscii(c) && c != ' ' }

  lemma MarkerChars()
    ensures AllChars("window.", IsMarkerChar)
    ensures AllChars("document.", IsMarkerChar)
    ensures AllChars("function(", IsMarkerChar)
  {
  }

  /** Neither replace nor the trim can create a marker made of printable, non-space characters. */
  lemma MarkerNotCreated(text: string, m: string)
    requires |m| > 0 && AllChars(m, IsMarkerChar)
    ensures var collapsed := ReplaceRuns(ReplaceRuns(text, NotPrintable, " "), IsSpace, " ");
      Contains(Trim(collapsed), m) ==> Contains(text, m)
  {
    var printable := ReplaceRuns(text, NotPrintable, " ");
    var collapsed := ReplaceRuns(printable, IsSpace, " ");
    ContainsOfTrim(collapsed, m);
    forall i | 0 <= i < |m| ensures !IsSpace(m[i]) && m[i] !in " " && !NotPrintable(m[i]) {
      assert IsPrintableAscii(m[i]);
    }
    MarkerThroughReplaces(text, m);
  }

  lemma MarkerThroughReplaces(text: string, m: string)
    requires |m| > 0
    requires forall i :: 0 <= i < |m| ==> !IsSpace(m[i]) && m[i] !in " " && !NotPrintable(m[i])
    ensures var collapsed := ReplaceRuns(ReplaceRuns(text, NotPrintable, " "), IsSpace, " ");
      Contains(collapsed, m) ==> Contains(text, m)
  {
    var printable := ReplaceRuns(text, NotPrintable, " ");
    var collapsed := ReplaceRuns(printable, IsSpace, " ");
    if Contains(collapsed, m) {
      ReplaceRunsContainsBack(printable, IsSpace, " ", m);
      ReplaceRunsContainsBack(text, NotPrintable, " ", m);
    }
  }

  /**
   * Text that is already what the sanitizer produces — non-empty printable
   * ASCII, trimmed, single-spaced and free of script markers — is kept as
   * it is.
   */
  lemma SanitizeKeeps(text: string)
    requires text != [] && AllChars(text, IsPrintableAscii) && IsTrimmed(text)
    requires NoAdjacent(text, IsSpace) && !HasScriptMarker(text)
    ensures Sanitize(text) == text
  {
    ReplaceRunsIdentity(text, NotPrintable, " ");
    forall i | 0 <= i < |text| && IsSpace(text[i]) ensures text[i] == ' ' {
      assert IsPrintableAscii(text[i]);
    }
    ReplaceRunsFixed(text, IsSpace, ' ');
    TrimOfTrimmed(text);
  }

  /** Sanitizing twice gives the same text as sanitizing once. */
  lemma SanitizeIdempotent(text: string)
    ensures Sanitize(Sanitize(text)) == Sanitize(text)
  {
    var r := Sanitize(text);
    if r != [] {
      SanitizeKeeps(r);
    }
  }

  // ---------------------------------------------------------------------------
  // isValidContent
  // ---------------------------------------------------------------------------

  /** Fragments of the page's own scripts and of rendering noise. */
  const NoisePatterns: seq<string> := [
    "window.__oai", "window._oai", "request Animation Frame", "Search Reason",
    "HTML?window", "SSR_HTML", "TTI?window", "Date.now()", "undefined"
  ]

  predicate IsDigitSpaceOrDot(c: char) { IsSpace(c) || IsDigit(c) || c == '.' }

  predicate HasNoise(text: string) {
    exists k :: 0 <= k < |NoisePatterns| && Contains(text, NoisePatterns[k])
  }

  /** Whether extracted text is worth keeping: it is checked after trimming. */
  predicate IsValidContent(text: string) {
    text != []
    && var t := Trim(text);
    |t| > 0 && !HasNoise(t) && !(|t| > 0 && AllChars(t, IsDigitSpaceOrDot))
  }

  /**
   * Text is valid exactly when it is not all white space, contains no noise
   * pattern and is not made only of digits, white space and dots.
   */
  lemma ValidContentIff(text: string)
    ensures IsValidContent(text) <==>
      !AllChars(text, IsSpace) && !HasNoise(text) && !AllChars(text, IsDigitSpaceOrDot)
  {
    TrimEmptyIff(text);
    AllCharsTrim(text, IsDigitSpaceOrDot);
    forall k | 0 <= k < |NoisePatterns|
      ensures Contains(Trim(text), NoisePatterns[k]) <==> Contains(text, NoisePatterns[k])
    {
      ContainsTrim(text, NoisePatterns[k]);
    }
  }

  // ---------------------------------------------------------------------------
  // isUIControl / isUIControlText
  // ---------------------------------------------------------------------------

  /** Captions of the code-block toolbar: language names and the copy and edit buttons. */
  const UIControlWords: set<string> := {
    "java", "copy", "edit", "copy edit",
    "javascript", "python", "typescript", "html", "css", "json", "xml", "yaml",
    "sql", "c++", "c#", "go", "ruby", "php"
  }

  /** The text a caption is compared by. */
  function UIKey(text: string): string {
    Trim(Lower(text))
  }

  /** Whether the text, lower-cased and trimmed, is a toolbar caption. */
  predicate IsUIControlText(text: string) {
    text != [] && UIKey(text) in UIControlWords
  }

  lemma UIKeyTrim(text: string)
    ensures UIKey(Trim(text)) == UIKey(text)
  {
    TrimLower(text);
    TrimLower(Trim(text));
    TrimOfTrimmed(Trim(text));
  }

  /** Leading and trailing white space and letter case do not change the verdict. */
  lemma UIControlTrim(text: string)
    ensures IsUIControlText(Trim(text)) == IsUIControlText(text)
  {
    UIKeyTrim(text);
    if Trim(text) == [] {
      TrimLower(text);
      assert UIKey(text) == [];
    }
  }

  lemma UIControlLower(text: string)
    ensures IsUIControlText(Lower(text)) == IsUIControlText(text)
  {
    assert Lower(Lower(text)) == Lower(text);
  }

  // ---------------------------------------------------------------------------
  // getCodeLanguage
  // ---------------------------------------------------------------------------

  const LanguagePrefix := "language-"

  /** The index of the first class starting with `language-`, if any. */
  function FirstLanguageClass(classes: seq<string>): (r: Option<nat>)
    ensures r.Some? ==> r.value < |classes| && IsPrefix(LanguagePrefix, classes[r.value])
    ensures r.Some? ==> forall j :: 0 <= j < r.value ==> !IsPrefix(LanguagePrefix, classes[j])
    ensures r.None? ==> forall j :: 0 <= j < |classes| ==> !IsPrefix(LanguagePrefix, classes[j])
  {
    if classes == [] then None
    else if IsPrefix(LanguagePrefix, classes[0]) then Some(0)
    else match FirstLanguageClass(classes[1..])
      case None => None
      case Some(k) => Some(k + 1)
  }

  /** What GetCodeLanguage returns, as a function of the class attribute. */
  function CodeLanguage(className: Option<string>): string {
    if className.None? then []
    else
      var classes := SplitOn(className.value, " ");
      match FirstLanguageClass(classes)
      case None => []
      case Some(k) => classes[k][|LanguagePrefix|..]
  }

  /**
   * The language of a `pre` element, from its class attribute (None for a
   * missing element): the rest of the first class that starts with
   * `language-`, or empty when there is none.
   */
  method GetCodeLanguage(className: Option<string>) returns (lang: string)
    ensures lang == CodeLanguage(className)
    ensures className.None? ==> lang == []
    ensures className.Some? ==>
      var classes := SplitOn(className.value, " ");
      match FirstLanguageClass(classes)
      case None => lang == []
      case Some(k) => lang == classes[k][|LanguagePrefix|..]
  {
    if className.None? {
      return [];
    }
    var classes := SplitOn(className.value, " ");
    var i := 0;
    while i < |classes|
      invariant 0 <= i <= |classes|
      invariant forall j :: 0 <= j < i ==> !IsPrefix(LanguagePrefix, classes[j])
    {
      if IsPrefix(LanguagePrefix, classes[i]) {
        assert FirstLanguageClass(classes) == Some(i);
        return classes[i][|LanguagePrefix|..];
      }
      i := i + 1;
    }
    assert FirstLanguageClass(classes) == None;
    return [];
  }

  // ---------------------------------------------------------------------------
  // updateConversationTitle
  // ---------------------------------------------------------------------------

  const DefaultTitle := "ChatGPT Conversation"
  const TitleSuffix := " - ChatGPT"

  /** The page title with the first ` - ChatGPT` removed and trimmed, or the default title when that is empty. */
  function ConversationTitle(pageTitle: string): (title: string)
    ensures |title| > 0 && IsTrimmed(title)
    ensures !Contains(pageTitle, TitleSuffix) && !AllChars(pageTitle, IsSpace) ==> title == Trim(pageTitle)
    ensures AllChars(pageTitle, IsSpace) ==> title == DefaultTitle
    ensures EndsWithSuffixOnce(pageTitle) ==>
      var stem := pageTitle[..|pageTitle| - |TitleSuffix|];
      title == (if AllChars(stem, IsSpace) then DefaultTitle else Trim(stem))
  {
    TrimEmptyIff(pageTitle);
    SuffixRemoved(pageTitle);
    var t := Trim(ReplaceString(pageTitle, TitleSuffix, ""));
    if t == [] then DefaultTitle else t
  }

  /** Removing the first ` - ChatGPT` from a title that has it only at its end leaves the stem. */
  lemma SuffixRemoved(pageTitle: string)
    ensures EndsWithSuffixOnce(pageTitle) ==>
      var stem := pageTitle[..|pageTitle| - |TitleSuffix|];
      ReplaceString(pageTitle, TitleSuffix, "") == stem
      && (Trim(stem) == [] <==> AllChars(stem, IsSpace))
  {
    if EndsWithSuffixOnce(pageTitle) {
      var stem := pageTitle[..|pageTitle| - |TitleSuffix|];
      SuffixNoOverlap();
      ReplaceTrailing(pageTitle, TitleSuffix, "", |pageTitle| - |TitleSuffix|);
      assert stem + "" == stem;
      TrimEmptyIff(stem);
    }
  }

  /** The page title ends in ` - ChatGPT` and has no earlier ` - ChatGPT`. */
  predicate EndsWithSuffixOnce(pageTitle: string) {
    |pageTitle| >= |TitleSuffix|
    && pageTitle[|pageTitle| - |TitleSuffix|..] == TitleSuffix
    && !Contains(pageTitle[..|pageTitle| - |TitleSuffix|], TitleSuffix)
  }

  /** ` - ChatGPT` cannot overlap itself: no later position starts with its first two characters. */
  lemma SuffixNoOverlap()
    ensures NoSelfOverlap(TitleSuffix)
  {
  }

  /** A page title that ends in ` - ChatGPT`, with no earlier ` - ChatGPT`, loses exactly that suffix and is trimmed; a blank rest gives the default title. */
  lemma TitleSuffixStripped(t: string)
    requires !Contains(t, TitleSuffix)
    ensures ConversationTitle(t + TitleSuffix) == (if AllChars(t, IsSpace) then DefaultTitle else Trim(t))
  {
    var p := t + TitleSuffix;
    assert p[..|t|] == t && p[|t|..] == TitleSuffix;
    assert EndsWithSuffixOnce(p);
  }

}
