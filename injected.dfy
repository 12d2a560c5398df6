/**
 * The page script's own extraction, with the page abstracted away: the
 * text cleanup applied to a message element's text, the guess of a code
 * block's language from its content, the items built from one message
 * element (its code blocks and the text around them), the transcript
 * parser used when only the raw text of the main element is left, and the
 * four extraction approaches tried in turn.
 *
 * The loops of the source are methods proved equal to specification
 * functions; the lemmas state what the results guarantee.
 */
module InjectedScript {
  import opened Optional
  import opened JsText
  import opened Pattern
  import opened PageText
  import opened Cleanup

  // ---------------------------------------------------------------------------
  // Lazy regular expressions: /head.+?tail/
  // ---------------------------------------------------------------------------

  predicate NotLineTerminator(c: char) { !IsLineTerminator(c) }

  /**
   * The match of `head.+?tail` at the start of a text that begins with
   * `head`: at least one character, then the first `tail` after it. Without
   * the `s` flag the characters before `tail` may not end a line.
   */
  function LazyHit(t: string, h: nat, tail: string, dotAll: bool): (r: Hit)
    requires h < |t|
    ensures r.Hit? ==> h < r.len <= |t| && r.out == []
  {
    match IndexOf(t[h + 1..], tail)
    case None => Miss
    case Some(k) =>
      if dotAll || AllChars(t[h..h + 1 + k], NotLineTerminator) then Hit(h + 1 + k + |tail|, [])
      else Miss
  }

  /** `/head.+?tail/g` (with `s` when `dotAll`) as a matcher that removes what it matches. */
  function Lazy(head: string, tail: string, dotAll: bool): string -> Hit {
    t => if |head| < |t| && IsPrefix(head, t) then LazyHit(t, |head|, tail, dotAll) else Miss
  }

  /** `\(\d+:\d+:\d+\)`: a time of day in parentheses. */
  function Stamp(): seq<Tok> {
    [Ch('('), Digits(1), Ch(':'), Digits(1), Ch(':'), Digits(1), Ch(')')]
  }

  // ---------------------------------------------------------------------------
  // cleanupMessageText
  // ---------------------------------------------------------------------------

  /** The speaker labels and time stamps removed first, case-insensitively. */
  function RemoveLabels(text: string): string {
    var t1 := ReplaceAll(text, LiteralIgnoreCase("You said:", ""));
    var t2 := ReplaceAll(t1, LiteralIgnoreCase("ChatGPT said:", ""));
    var t3 := ReplaceAll(t2, Replacing(LitI("User ") + Stamp(), ""));
    var t4 := ReplaceAll(t3, Replacing(LitI("ChatGPT ") + Stamp(), ""));
    ReplaceAll(t4, Replacing(LitI("Assistant ") + Stamp(), ""))
  }

  /** The script fragments removed next, each from its opening to the first closing after it, across lines. */
  function RemoveScripts(text: string): string {
    var t1 := ReplaceAll(text, Lazy("window.__oai_logHTML", "SearchReason", true));
    var t2 := ReplaceAll(t1, Lazy("requestAnimationFrame(", ")", true));
    ReplaceAll(t2, Lazy("SSR_HTML", "SSR_TTI", true))
  }

  /**
   * The trimmed lines of `lines` that are not blank, each kept the first
   * time it occurs, in order.
   */
  function UniqueLines(lines: seq<string>): seq<string>
    decreases |lines|
  {
    if lines == [] then []
    else
      var kept := UniqueLines(lines[..|lines| - 1]);
      var t := Trim(lines[|lines| - 1]);
      if t != [] && t !in kept then kept + [t] else kept
  }

  predicate SpaceOrVisible(c: char) { c == ' ' || !IsSpace(c) }

  /**
   * The cleaned text: labels and script fragments removed, repeated and
   * blank lines dropped, then every white-space run (line breaks included)
   * made one space and the ends trimmed.
   */
  function CleanedText(text: string): (r: string)
    ensures IsTrimmed(r) && NoAdjacent(r, IsSpace) && AllChars(r, SpaceOrVisible)
    ensures text == [] ==> r == []
  {
    if text == [] then []
    else
      var joined := Join(UniqueLines(SplitOn(RemoveScripts(RemoveLabels(text)), "\n")), "\n");
      var spaced := ReplaceRuns(joined, IsSpace, " ");
      ReplaceRunsNoAdjacent(joined, IsSpace, ' ');
      TrimNoAdjacent(spaced, IsSpace);
      TrimKeepsAll(spaced, SpaceOrVisible);
      Trim(spaced)
  }

  /** The duplicate-line loop: a set of the lines seen so far and the list of lines kept. */
  method RemoveDuplicateLines(lines: seq<string>) returns (unique: seq<string>)
    ensures unique == UniqueLines(lines)
  {
    unique := [];
    var seen: set<string> := {};
    for i := 0 to |lines|
      invariant unique == UniqueLines(lines[..i])
      invariant seen == set x | x in unique
    {
      assert lines[..i + 1][..i] == lines[..i];
      var trimmed := Trim(lines[i]);
      if trimmed != [] && trimmed !in seen {
        seen := seen + {trimmed};
        unique := unique + [trimmed];
      }
    }
    assert lines[..|lines|] == lines;
  }

  /** `cleanupMessageText`. */
  method CleanupMessageText(text: string) returns (r: string)
    ensures r == CleanedText(text)
    ensures IsTrimmed(r) && NoAdjacent(r, IsSpace) && AllChars(r, SpaceOrVisible)
  {
    if text == [] {
      return [];
    }
    var stripped := RemoveScripts(RemoveLabels(text));
    var unique := RemoveDuplicateLines(SplitOn(stripped, "\n"));
    r := Trim(ReplaceRuns(Join(unique, "\n"), IsSpace, " "));
  }

  predicate NoRepeats<T(==)>(s: seq<T>) {
    forall i, j :: 0 <= i < j < |s| ==> s[i] != s[j]
  }

  /** No line is kept twice. */
  lemma {:induction false} UniqueLinesDistinct(lines: seq<string>)
    ensures NoRepeats(UniqueLines(lines))
    decreases |lines|
  {
    if lines != [] {
      var init := lines[..|lines| - 1];
      UniqueLinesDistinct(init);
      var kept, t := UniqueLines(init), Trim(lines[|lines| - 1]);
      if t != [] && t !in kept {
        var u := kept + [t];
        forall i, j | 0 <= i < j < |u| ensures u[i] != u[j] {
          assert u[i] == kept[i];
          if j == |kept| {
            assert u[j] == t;
            assert kept[i] in kept;
          } else {
            assert u[j] == kept[j];
            assert kept[i] != kept[j];
          }
        }
        assert u == UniqueLines(lines);
      }
    }
  }

  /** Every kept line is a non-blank line of the input, trimmed. */
  lemma {:induction false} UniqueLinesSound(lines: seq<string>)
    ensures forall x :: x in UniqueLines(lines) ==>
      x != [] && exists i :: 0 <= i < |lines| && Trim(lines[i]) == x
    decreases |lines|
  {
    if lines != [] {
      var init := lines[..|lines| - 1];
      UniqueLinesSound(init);
      forall x | x in UniqueLines(init)
        ensures exists i :: 0 <= i < |lines| && Trim(lines[i]) == x
      {
        var i :| 0 <= i < |init| && Trim(init[i]) == x;
        assert lines[i] == init[i];
      }
    }
  }

  /** Every non-blank line of the input is kept, trimmed. */
  lemma {:induction false} UniqueLinesComplete(lines: seq<string>)
    ensures forall i :: 0 <= i < |lines| && Trim(lines[i]) != [] ==> Trim(lines[i]) in UniqueLines(lines)
    decreases |lines|
  {
    if lines != [] {
      var init := lines[..|lines| - 1];
      UniqueLinesComplete(init);
      forall i | 0 <= i < |init| ensures lines[i] == init[i] { }
    }
  }

  /**
   * What is kept from a prefix of the lines is a prefix of what is kept
   * from all of them: a line stays where it first occurs.
   */
  lemma {:induction false} UniqueLinesPrefix(lines: seq<string>, m: nat)
    requires m <= |lines|
    ensures var u := UniqueLines(lines);
      var p := UniqueLines(lines[..m]);
      |p| <= |u| && u[..|p|] == p
    decreases |lines|
  {
    if m < |lines| {
      var init := lines[..|lines| - 1];
      assert init[..m] == lines[..m];
      UniqueLinesPrefix(init, m);
    } else {
      assert lines[..m] == lines;
    }
  }

  /** How often `x` occurs in `s`. */
  function Count<T(==)>(s: seq<T>, x: T): nat
    decreases |s|
  {
    if s == [] then 0
    else Count(s[..|s| - 1], x) + (if s[|s| - 1] == x then 1 else 0)
  }

  /** A sequence with no repeats holds any value at most once. */
  lemma {:induction false} NoRepeatsCount<T>(s: seq<T>, x: T)
    requires NoRepeats(s)
    ensures Count(s, x) <= 1
    decreases |s|
  {
    if s != [] {
      var init := s[..|s| - 1];
      assert NoRepeats(init) by {
        forall i, j | 0 <= i < j < |init| ensures init[i] != init[j] {
          assert init[i] == s[i] && init[j] == s[j];
        }
      }
      NoRepeatsCount(init, x);
      if s[|s| - 1] == x && Count(init, x) > 0 {
        CountPositive(init, x);
      }
    }
  }

  lemma {:induction false} CountPositive<T>(s: seq<T>, x: T)
    requires Count(s, x) > 0
    ensures exists k :: 0 <= k < |s| && s[k] == x
    decreases |s|
  {
    var init := s[..|s| - 1];
    if s[|s| - 1] != x {
      CountPositive(init, x);
      var k :| 0 <= k < |init| && init[k] == x;
      assert s[k] == x;
    }
  }

  // ---------------------------------------------------------------------------
  // Markers of removed code blocks and the duplicate-line removal
  // ---------------------------------------------------------------------------

  /** What replaces each code block's text in the message text. */
  const CodeMarker := "[CODE_BLOCK]"

  /** The number of input lines that are, once trimmed, a code-block marker. */
  function MarkerLines(lines: seq<string>): nat
    decreases |lines|
  {
    if lines == [] then 0
    else MarkerLines(lines[..|lines| - 1]) + (if Trim(lines[|lines| - 1]) == CodeMarker then 1 else 0)
  }

  /**
   * The duplicate-line removal runs after the code blocks were replaced by
   * markers, so it keeps at most one marker line, however many code blocks
   * stood on lines of their own.
   */
  lemma UniqueLinesOneMarker(lines: seq<string>)
    ensures Count(UniqueLines(lines), CodeMarker) <= 1
  {
    UniqueLinesDistinct(lines);
    NoRepeatsCount(UniqueLines(lines), CodeMarker);
  }

  /** The removal the marker split evidently needs: marker lines are never taken for repeats. */
  function UniqueLinesKeepingMarkers(lines: seq<string>): seq<string>
    decreases |lines|
  {
    if lines == [] then []
    else
      var kept := UniqueLinesKeepingMarkers(lines[..|lines| - 1]);
      var t := Trim(lines[|lines| - 1]);
      if t != [] && (t == CodeMarker || t !in kept) then kept + [t] else kept
  }

  /** Keeping marker lines keeps one marker for every marker line of the input. */
  lemma {:induction false} KeepingMarkersCount(lines: seq<string>)
    ensures Count(UniqueLinesKeepingMarkers(lines), CodeMarker) == MarkerLines(lines)
    decreases |lines|
  {
    if lines != [] {
      var init := lines[..|lines| - 1];
      KeepingMarkersCount(init);
      var kept, t := UniqueLinesKeepingMarkers(init), Trim(lines[|lines| - 1]);
      if t != [] && (t == CodeMarker || t !in kept) {
        assert (kept + [t])[..|kept + [t]| - 1] == kept;
      }
    }
  }

  /**
   * Text with two or more code blocks standing on lines of their own loses
   * marker lines to the written removal, and the text after each lost
   * marker is split off with the text after an earlier code block; keeping
   * marker lines loses none.
   */
  lemma MarkerLinesLost(lines: seq<string>)
    requires MarkerLines(lines) >= 2
    ensures Count(UniqueLines(lines), CodeMarker) < MarkerLines(lines)
    ensures Count(UniqueLinesKeepingMarkers(lines), CodeMarker) == MarkerLines(lines)
  {
    UniqueLinesOneMarker(lines);
    KeepingMarkersCount(lines);
  }

  // ---------------------------------------------------------------------------
  // detectCodeLanguage
  // ---------------------------------------------------------------------------

  /** The language guessed from a code block's text: the first rule whose words all occur, `code` when none does. */
  function DetectCodeLanguage(code: string): (lang: string)
    ensures lang == "plaintext" <==> code == []
    ensures lang in {"plaintext", "python", "javascript", "java", "cpp", "go", "code"}
  {
    if code == [] then "plaintext"
    else if Contains(code, "def ") && Contains(code, "import ") then "python"
    else if Contains(code, "function") && (Contains(code, "=>") || Contains(code, "{")) then "javascript"
    else if Contains(code, "public class") || Contains(code, "public static void") then "java"
    else if Contains(code, "#include") && (Contains(code, "<iostream>") || Contains(code, "<stdio.h>")) then "cpp"
    else if Contains(code, "package main") || Contains(code, "func main()") then "go"
    else "code"
  }

  /** A language rule: every group must have one of its words in the code. */
  datatype Rule = Rule(language: string, needs: seq<seq<string>>)

  /** The rules in the order they are tried. */
  const LanguageRules: seq<Rule> := [
    Rule("python", [["def "], ["import "]]),
    Rule("javascript", [["function"], ["=>", "{"]]),
    Rule("java", [["public class", "public static void"]]),
    Rule("cpp", [["#include"], ["<iostream>", "<stdio.h>"]]),
    Rule("go", [["package main", "func main()"]])
  ]

  predicate AnyOf(code: string, words: seq<string>) {
    exists i :: 0 <= i < |words| && Contains(code, words[i])
  }

  predicate RuleHolds(code: string, rule: Rule) {
    forall g :: 0 <= g < |rule.needs| ==> AnyOf(code, rule.needs[g])
  }

  /** The language of the first rule that holds, if any. */
  function FirstRule(code: string, rules: seq<Rule>): Option<string>
    decreases |rules|
  {
    if rules == [] then None
    else if RuleHolds(code, rules[0]) then Some(rules[0].language)
    else FirstRule(code, rules[1..])
  }

  lemma AnyOfOne(code: string, a: string)
    ensures AnyOf(code, [a]) <==> Contains(code, a)
  {
    assert [a][0] == a;
  }

  lemma AnyOfTwo(code: string, a: string, b: string)
    ensures AnyOf(code, [a, b]) <==> Contains(code, a) || Contains(code, b)
  {
    assert [a, b][0] == a && [a, b][1] == b;
  }

  lemma RuleOne(code: string, language: string, g: seq<string>)
    ensures RuleHolds(code, Rule(language, [g])) <==> AnyOf(code, g)
  {
    assert [g][0] == g;
  }

  lemma RuleTwo(code: string, language: string, g0: seq<string>, g1: seq<string>)
    ensures RuleHolds(code, Rule(language, [g0, g1])) <==> AnyOf(code, g0) && AnyOf(code, g1)
  {
    assert [g0, g1][0] == g0 && [g0, g1][1] == g1;
  }

  /** The chain of tests is the rule table read in order. */
  lemma DetectByRules(code: string)
    ensures DetectCodeLanguage(code) ==
      if code == [] then "plaintext" else FirstRule(code, LanguageRules).GetOr("code")
  {
    var rules := LanguageRules;
    RuleTwo(code, "python", ["def "], ["import "]);
    AnyOfOne(code, "def ");
    AnyOfOne(code, "import ");
    RuleTwo(code, "javascript", ["function"], ["=>", "{"]);
    AnyOfOne(code, "function");
    AnyOfTwo(code, "=>", "{");
    RuleOne(code, "java", ["public class", "public static void"]);
    AnyOfTwo(code, "public class", "public static void");
    RuleTwo(code, "cpp", ["#include"], ["<iostream>", "<stdio.h>"]);
    AnyOfOne(code, "#include");
    AnyOfTwo(code, "<iostream>", "<stdio.h>");
    RuleOne(code, "go", ["package main", "func main()"]);
    AnyOfTwo(code, "package main", "func main()");
    assert rules[1..][1..][1..][1..][1..] == [];
  }

  // ---------------------------------------------------------------------------
  // processMessageContent
  // ---------------------------------------------------------------------------

  /**
   * A message element as the script reads it: its `textContent` and the
   * `textContent` of each element its code-block query selects, in
   * document order.
   */
  datatype Element = Element(textContent: string, codeTexts: seq<string>)

  const LogCall := "window.__oai_logHTML?window.__oai_logHTML()"
  const ScriptPrefix := "window.__oai_"

  /** The logging call up to the next `SearchReason` on the same line, then every remaining script prefix, removed. */
  function StripLogCalls(text: string): string {
    ReplaceAll(ReplaceAll(text, Lazy(LogCall, "SearchReason", false)), Literal(ScriptPrefix, ""))
  }

  /** A selected code block is kept when its trimmed text has five characters or more and no script prefix. */
  predicate KeepsCode(codeText: string) {
    var t := Trim(codeText);
    |t| >= 5 && !Contains(t, ScriptPrefix)
  }

  function CodeItem(codeText: string): Item {
    var t := Trim(codeText);
    Code(t, DetectCodeLanguage(t), None)
  }

  /** The code items of the kept blocks, in document order. */
  function CodeItems(codeTexts: seq<string>): seq<Item>
    decreases |codeTexts|
  {
    if codeTexts == [] then []
    else
      var c := codeTexts[|codeTexts| - 1];
      CodeItems(codeTexts[..|codeTexts| - 1]) + (if KeepsCode(c) then [CodeItem(c)] else [])
  }

  /** The text with the first occurrence of each kept block's trimmed text replaced by a marker, block by block. */
  function MarkCodes(text: string, codeTexts: seq<string>): string
    decreases |codeTexts|
  {
    if codeTexts == [] then text
    else
      var c := codeTexts[|codeTexts| - 1];
      var marked := MarkCodes(text, codeTexts[..|codeTexts| - 1]);
      if KeepsCode(c) then ReplaceString(marked, Trim(c), CodeMarker) else marked
  }

  /** The code-block loop: the kept blocks become code items and are replaced by markers in the text. */
  method CollectCodeBlocks(text: string, codeTexts: seq<string>) returns (codeItems: seq<Item>, marked: string)
    ensures codeItems == CodeItems(codeTexts) && marked == MarkCodes(text, codeTexts)
  {
    codeItems, marked := [], text;
    for i := 0 to |codeTexts|
      invariant codeItems == CodeItems(codeTexts[..i]) && marked == MarkCodes(text, codeTexts[..i])
    {
      assert codeTexts[..i + 1][..i] == codeTexts[..i];
      var codeText := Trim(codeTexts[i]);
      if |codeText| < 5 || Contains(codeText, ScriptPrefix) {
        continue;
      }
      codeItems := codeItems + [Code(codeText, DetectCodeLanguage(codeText), None)];
      marked := ReplaceString(marked, codeText, CodeMarker);
    }
    assert codeTexts[..|codeTexts|] == codeTexts;
  }

  /** The trimmed piece `i` of the split text as a text item, when it exists and is not blank. */
  function PieceText(pieces: seq<string>, i: nat): seq<Item> {
    if i < |pieces| && Trim(pieces[i]) != [] then [Text(Trim(pieces[i]), None)] else []
  }

  /** The text items of the pieces, by index. */
  function PieceTexts(pieces: seq<string>): nat -> seq<Item> {
    (i: nat) => PieceText(pieces, i)
  }

  /** The text before the first code item, then each of the first `n` code items followed by the text after it. */
  function Interleave(codes: seq<Item>, n: nat, text: nat -> seq<Item>): seq<Item>
    requires n <= |codes|
  {
    if n == 0 then text(0)
    else Interleave(codes, n - 1, text) + [codes[n - 1]] + text(n)
  }

  /** The first piece, then each code item followed by the piece after it. */
  function Combined(pieces: seq<string>, codes: seq<Item>): seq<Item> {
    Interleave(codes, |codes|, PieceTexts(pieces))
  }

  /** The combining loop. */
  method CombineItems(pieces: seq<string>, codes: seq<Item>) returns (items: seq<Item>)
    ensures items == Combined(pieces, codes)
  {
    items := TextPiece(pieces, 0);
    for i := 0 to |codes|
      invariant items == Interleave(codes, i, PieceTexts(pieces))
    {
      var after := TextPiece(pieces, i + 1);
      items := items + [codes[i]] + after;
    }
  }

  /** The text item of one piece: its trimmed text, when the piece exists and is not blank. */
  method TextPiece(pieces: seq<string>, i: nat) returns (items: seq<Item>)
    ensures items == PieceText(pieces, i)
  {
    items := [];
    if i < |pieces| && pieces[i] != [] && Trim(pieces[i]) != [] {
      items := [Text(Trim(pieces[i]), None)];
    }
  }

  /** Text carrying none of the script words. */
  predicate NoResidue(text: string) {
    !Contains(text, ScriptPrefix) && !Contains(text, "requestAnimationFrame") && !Contains(text, "SSR_HTML")
  }

  /** Cleaned text without code blocks is kept when it is not blank and carries no script residue. */
  function PlainItems(cleaned: string): seq<Item> {
    if Trim(cleaned) != [] && NoResidue(cleaned)
    then [Text(Trim(cleaned), None)]
    else []
  }

  /** The items built from an element with code blocks. */
  function ItemsWithCode(full: string, codeTexts: seq<string>): seq<Item> {
    var codes := CodeItems(codeTexts);
    Combined(SplitOn(CleanedText(MarkCodes(full, codeTexts)), CodeMarker), codes)
  }

  /** The items built from an element. */
  function ContentItems(e: Element): seq<Item> {
    var full := StripLogCalls(e.textContent);
    if |e.codeTexts| > 0 then ItemsWithCode(full, e.codeTexts) else PlainItems(CleanedText(full))
  }

  /** The message built from an element: none for a missing element or one without items. */
  function MessageContent(element: Option<Element>, speaker: string, now: string): Option<Message> {
    if element.None? then None
    else
      var items := ContentItems(element.value);
      if items == [] then None else Some(Message(speaker, now, Some(items)))
  }

  /** `processMessageContent`; `now` is the time stamp the message gets. */
  method ProcessMessageContent(element: Option<Element>, speaker: string, now: string) returns (msg: Option<Message>)
    ensures msg == MessageContent(element, speaker, now)
    ensures msg.Some? ==> msg.value.speaker == speaker && HasItems(msg.value)
  {
    if element.None? {
      return None;
    }
    var items := BuildItems(element.value);
    if items == [] {
      return None;
    }
    msg := Some(Message(speaker, now, Some(items)));
  }

  /** The body of `processMessageContent` after the null check. */
  method BuildItems(e: Element) returns (items: seq<Item>)
    ensures items == ContentItems(e)
  {
    var fullText := StripLogCalls(e.textContent);
    if |e.codeTexts| > 0 {
      items := BuildCodeItems(fullText, e.codeTexts);
    } else {
      var cleaned := CleanupMessageText(fullText);
      items := PlainItems(cleaned);
    }
  }

  /** The branch for an element with code blocks. */
  method BuildCodeItems(fullText: string, codeTexts: seq<string>) returns (items: seq<Item>)
    ensures items == ItemsWithCode(fullText, codeTexts)
  {
    var codeItems, marked := CollectCodeBlocks(fullText, codeTexts);
    var cleaned := CleanupMessageText(marked);
    var pieces := SplitOn(cleaned, CodeMarker);
    items := CombineItems(pieces, codeItems);
  }

  // ---------------------------------------------------------------------------
  // What a processed element's items look like
  // ---------------------------------------------------------------------------

  /** A kept code block: trimmed, five characters or more, no script prefix, its language detected from its text. */
  predicate GoodCode(it: Item) {
    it.Code? && |it.content| >= 5 && IsTrimmed(it.content) && !Contains(it.content, ScriptPrefix)
    && it.language == DetectCodeLanguage(it.content) && it.y.None?
  }

  /** A text item: trimmed and not empty. */
  predicate GoodText(it: Item) {
    it.Text? && it.content != [] && IsTrimmed(it.content) && it.y.None?
  }

  /** No text item directly follows another. */
  predicate NoTwoTexts(items: seq<Item>) {
    forall i :: 0 <= i < |items| - 1 ==> !(items[i].Text? && items[i + 1].Text?)
  }

  /** The code items of a sequence, in order. */
  function CodesOf(items: seq<Item>): seq<Item>
    decreases |items|
  {
    if items == [] then []
    else CodesOf(items[..|items| - 1]) + (if items[|items| - 1].Code? then [items[|items| - 1]] else [])
  }

  lemma {:induction false} CodesOfAppend(a: seq<Item>, b: seq<Item>)
    ensures CodesOf(a + b) == CodesOf(a) + CodesOf(b)
    decreases |b|
  {
    if b == [] {
      assert a + b == a;
    } else {
      var init := b[..|b| - 1];
      CodesOfAppend(a, init);
      assert (a + b)[..|a + b| - 1] == a + init;
      assert (a + b)[|a + b| - 1] == b[|b| - 1];
    }
  }

  lemma NoCodes(s: seq<Item>)
    requires TextsAt(s)
    ensures CodesOf(s) == []
  {
    if s != [] {
      assert s[..0] == [];
      assert s[0] in s;
    }
  }

  lemma CodesOfSnoc(s: seq<Item>, x: Item)
    ensures CodesOf(s + [x]) == CodesOf(s) + (if x.Code? then [x] else [])
  {
    assert (s + [x])[..|s|] == s;
  }

  /** Every code item comes from a kept block, and every kept block gives its code item. */
  lemma {:induction false} CodeItemsKept(codeTexts: seq<string>)
    ensures forall it :: it in CodeItems(codeTexts) ==> GoodCode(it)
    ensures forall it :: it in CodeItems(codeTexts) ==> exists c :: c in codeTexts && KeepsCode(c) && it == CodeItem(c)
    ensures forall c :: c in codeTexts && KeepsCode(c) ==> CodeItem(c) in CodeItems(codeTexts)
    decreases |codeTexts|
  {
    if codeTexts != [] {
      var init := codeTexts[..|codeTexts| - 1];
      var c := codeTexts[|codeTexts| - 1];
      CodeItemsKept(init);
      assert codeTexts == init + [c];
      if KeepsCode(c) {
        var t := Trim(c);
        assert GoodCode(CodeItem(c));
      }
    }
  }

  /** A piece gives at most one item, a text. */
  lemma PieceTextShape(pieces: seq<string>, i: nat)
    ensures |PieceText(pieces, i)| <= 1
    ensures forall it :: it in PieceText(pieces, i) ==> GoodText(it)
    ensures CodesOf(PieceText(pieces, i)) == []
  {
    var p := PieceText(pieces, i);
    if p != [] {
      assert p[..0] == [];
    }
  }

  /** Each index gives at most one item, a text. */
  ghost predicate TextsOnly(text: nat -> seq<Item>) {
    forall i :: TextsAt(text(i))
  }

  predicate TextsAt(s: seq<Item>) {
    |s| <= 1 && forall it :: it in s ==> GoodText(it)
  }

  lemma PieceTextsOnly(pieces: seq<string>)
    ensures TextsOnly(PieceTexts(pieces))
  {
    forall i ensures TextsAt(PieceText(pieces, i)) {
      PieceTextShape(pieces, i);
    }
  }

  lemma PrefixSnoc<T>(s: seq<T>, n: nat)
    requires 0 < n <= |s|
    ensures s[..n] == s[..n - 1] + [s[n - 1]]
  {
  }

  /** One round of the interleaving adds one code item and no other. */
  lemma InterleaveStep(codes: seq<Item>, n: nat, text: nat -> seq<Item>)
    requires 0 < n <= |codes| && codes[n - 1].Code?
    requires CodesOf(text(n)) == []
    ensures CodesOf(Interleave(codes, n, text)) == CodesOf(Interleave(codes, n - 1, text)) + [codes[n - 1]]
  {
    var prev, code := Interleave(codes, n - 1, text), codes[n - 1];
    CodesOfSnoc(prev, code);
    CodesOfAppend(prev + [code], text(n));
  }

  /** The interleaved items hold the code items, in order, and nothing else but text. */
  lemma {:induction false} InterleaveCodes(codes: seq<Item>, n: nat, text: nat -> seq<Item>)
    requires n <= |codes|
    requires forall i :: 0 <= i < |codes| ==> codes[i].Code?
    requires TextsOnly(text)
    ensures CodesOf(Interleave(codes, n, text)) == codes[..n]
  {
    NoCodes(text(n));
    if n > 0 {
      InterleaveCodes(codes, n - 1, text);
      InterleaveStep(codes, n, text);
      PrefixSnoc(codes, n);
    }
  }

  /** Every interleaved item is a code item or a trimmed, non-empty text, and no two texts are neighbours. */
  lemma {:induction false} InterleaveShape(codes: seq<Item>, n: nat, text: nat -> seq<Item>)
    requires n <= |codes|
    requires forall i :: 0 <= i < |codes| ==> codes[i].Code?
    requires TextsOnly(text)
    ensures forall it :: it in Interleave(codes, n, text) ==> it in codes || GoodText(it)
    ensures NoTwoTexts(Interleave(codes, n, text))
  {
    if n > 0 {
      var prev := Interleave(codes, n - 1, text);
      var after := text(n);
      var code := codes[n - 1];
      InterleaveShape(codes, n - 1, text);
      assert code in codes;
      var r := prev + [code] + after;
      forall i | 0 <= i < |r| - 1 ensures !(r[i].Text? && r[i + 1].Text?) {
        if i < |prev| - 1 {
          assert r[i] == prev[i] && r[i + 1] == prev[i + 1];
        } else if i == |prev| - 1 {
          assert r[i + 1] == code;
        } else {
          assert r[i] == code;
        }
      }
    }
  }

  /** With code blocks: kept code blocks and non-blank texts, the code items in block order, never two texts in a row. */
  lemma ItemsWithCodeShape(full: string, codeTexts: seq<string>)
    ensures var items := ItemsWithCode(full, codeTexts);
      (forall it :: it in items ==> GoodCode(it) || GoodText(it))
      && NoTwoTexts(items) && CodesOf(items) == CodeItems(codeTexts)
  {
    var codes := CodeItems(codeTexts);
    var pieces := SplitOn(CleanedText(MarkCodes(full, codeTexts)), CodeMarker);
    CodeItemsKept(codeTexts);
    forall i | 0 <= i < |codes| ensures codes[i].Code? {
      assert codes[i] in codes;
    }
    PieceTextsOnly(pieces);
    InterleaveCodes(codes, |codes|, PieceTexts(pieces));
    InterleaveShape(codes, |codes|, PieceTexts(pieces));
    assert codes[..|codes|] == codes;
  }

  /** Without code blocks: at most one text, free of script residue. */
  lemma PlainItemsShape(cleaned: string)
    requires IsTrimmed(cleaned)
    ensures var items := PlainItems(cleaned);
      |items| <= 1 && (forall it :: it in items ==> GoodText(it)) && CodesOf(items) == []
      && forall it :: it in items ==> it.Text? && NoResidue(it.content)
  {
    TrimOfTrimmed(cleaned);
    NoCodes(PlainItems(cleaned));
  }

  /**
   * The items of a processed element: each a kept code block or a
   * trimmed, non-blank text; the code items are the kept blocks in
   * document order; no text directly follows another; and without code
   * blocks there is at most one text, free of script residue.
   */
  lemma ContentItemsShape(e: Element)
    ensures var items := ContentItems(e);
      (forall it :: it in items ==> GoodCode(it) || GoodText(it))
      && NoTwoTexts(items) && CodesOf(items) == CodeItems(e.codeTexts)
    ensures |e.codeTexts| == 0 ==>
      |ContentItems(e)| <= 1 && forall it :: it in ContentItems(e) ==> it.Text? && NoResidue(it.content)
  {
    var full := StripLogCalls(e.textContent);
    if |e.codeTexts| > 0 {
      ItemsWithCodeShape(full, e.codeTexts);
    } else {
      PlainItemsShape(CleanedText(full));
    }
  }

  // ---------------------------------------------------------------------------
  // The transcript fallback: speaker lines in the main element's raw text
  // ---------------------------------------------------------------------------

  /** `/^User\s*\(\d+:\d+:\d+\)/i`. */
  function UserLine(): seq<Tok> { LitI("User") + [Spaces(0)] + Stamp() }

  /** The two branches of `/^(ChatGPT|Assistant)\s*\(\d+:\d+:\d+\)/i`. */
  function ChatGPTLine(): seq<Tok> { LitI("ChatGPT") + [Spaces(0)] + Stamp() }
  function AssistantLine(): seq<Tok> { LitI("Assistant") + [Spaces(0)] + Stamp() }

  /** Who starts speaking on a line, and the length of the speaker mark that says so. */
  datatype Mark = Mark(speaker: string, len: nat)

  /** The speaker mark at the start of a trimmed line, if any; the user pattern is tried first. */
  function SpeakerMark(line: string): (r: Option<Mark>)
    ensures r.Some? ==> r.value.len <= |line| && r.value.speaker in {"User", "ChatGPT"}
  {
    match MatchLen(line, UserLine())
    case Some(n) => Some(Mark("User", n))
    case None =>
      match MatchLen(line, ChatGPTLine())
      case Some(n) => Some(Mark("ChatGPT", n))
      case None =>
        match MatchLen(line, AssistantLine())
        case Some(n) => Some(Mark("ChatGPT", n))
        case None => None
  }

  /** The parser's state: the messages so far, the current speaker if any, and the current speaker's lines. */
  datatype Transcript = Transcript(done: seq<Message>, speaker: Option<string>, text: seq<string>)

  const NoSpeaker := Transcript([], None, [])

  /** A message of the transcript: its lines joined by line breaks as one text item. */
  function TranscriptMessage(speaker: string, text: seq<string>, now: string): Message {
    Message(speaker, now, Some([Text(Join(text, "\n"), None)]))
  }

  /** The messages with the current speaker's message saved, if there is one. */
  function Flush(st: Transcript, now: string): seq<Message> {
    if st.speaker.Some? && |st.text| > 0 then st.done + [TranscriptMessage(st.speaker.value, st.text, now)]
    else st.done
  }

  /**
   * One line: a speaker mark saves the current message and starts a new one
   * with the rest of the line; another line goes to the current speaker, or
   * nowhere before the first mark.
   */
  function ReadLine(st: Transcript, line: string, now: string): Transcript {
    var t := Trim(line);
    match SpeakerMark(t)
    case Some(m) => Transcript(Flush(st, now), Some(m.speaker), [ReplaceString(t, t[..m.len], "")])
    case None => if st.speaker.Some? then st.(text := st.text + [t]) else st
  }

  function ReadLines(st: Transcript, lines: seq<string>, now: string): Transcript
    decreases |lines|
  {
    if lines == [] then st
    else ReadLine(ReadLines(st, lines[..|lines| - 1], now), lines[|lines| - 1], now)
  }

  /** The lines that are not blank, in order. */
  function NonBlankLines(lines: seq<string>): seq<string>
    decreases |lines|
  {
    if lines == [] then []
    else
      var l := lines[|lines| - 1];
      NonBlankLines(lines[..|lines| - 1]) + (if Trim(l) != [] then [l] else [])
  }

  /** The text is parsed only when it names the user and ChatGPT or an assistant. */
  predicate LooksLikeTranscript(raw: string) {
    Contains(raw, "User") && (Contains(raw, "ChatGPT") || Contains(raw, "Assistant"))
  }

  /** The messages the transcript fallback finds in the raw text of the main element. */
  function TranscriptMessages(raw: string, now: string): seq<Message> {
    if LooksLikeTranscript(raw) then Flush(ReadLines(NoSpeaker, NonBlankLines(SplitOn(raw, "\n")), now), now)
    else []
  }

  /** The transcript loop over the non-blank lines of the main element's text. */
  method ParseTranscript(raw: string, now: string) returns (messages: seq<Message>)
    ensures messages == TranscriptMessages(raw, now)
  {
    messages := [];
    if !LooksLikeTranscript(raw) {
      return;
    }
    var lines := NonBlankLines(SplitOn(raw, "\n"));
    var currentSpeaker: Option<string> := None;
    var currentText: seq<string> := [];
    for i := 0 to |lines|
      invariant Transcript(messages, currentSpeaker, currentText) == ReadLines(NoSpeaker, lines[..i], now)
    {
      assert lines[..i + 1][..i] == lines[..i];
      messages, currentSpeaker, currentText := NextLine(messages, currentSpeaker, currentText, lines[i], now);
    }
    assert lines[..|lines|] == lines;
    if currentSpeaker.Some? && |currentText| > 0 {
      messages := messages + [TranscriptMessage(currentSpeaker.value, currentText, now)];
    }
  }

  /** One round of the transcript loop. */
  method NextLine(messages: seq<Message>, currentSpeaker: Option<string>, currentText: seq<string>, line: string, now: string)
    returns (messages': seq<Message>, currentSpeaker': Option<string>, currentText': seq<string>)
    ensures Transcript(messages', currentSpeaker', currentText')
      == ReadLine(Transcript(messages, currentSpeaker, currentText), line, now)
  {
    messages', currentSpeaker', currentText' := messages, currentSpeaker, currentText;
    var trimmedLine := Trim(line);
    var mark := SpeakerMark(trimmedLine);
    if mark.Some? {
      if currentSpeaker.Some? && |currentText| > 0 {
        messages' := messages + [TranscriptMessage(currentSpeaker.value, currentText, now)];
      }
      currentSpeaker' := Some(mark.value.speaker);
      currentText' := [ReplaceString(trimmedLine, trimmedLine[..mark.value.len], "")];
    } else if currentSpeaker.Some? {
      currentText' := currentText + [trimmedLine];
    }
  }

  /** The number of lines that start with a speaker mark. */
  function MarkCount(lines: seq<string>): nat
    decreases |lines|
  {
    if lines == [] then 0
    else MarkCount(lines[..|lines| - 1]) + (if SpeakerMark(Trim(lines[|lines| - 1])).Some? then 1 else 0)
  }

  /** Every message so far, and the current one, was started by a mark line. */
  lemma {:induction false} ReadLinesCount(lines: seq<string>, now: string)
    ensures var st := ReadLines(NoSpeaker, lines, now);
      |st.done| + (if st.speaker.Some? then 1 else 0) == MarkCount(lines)
      && (st.speaker.Some? ==> |st.text| > 0)
    decreases |lines|
  {
    if lines != [] {
      ReadLinesCount(lines[..|lines| - 1], now);
    }
  }

  /** The fallback finds one message per line that starts with a speaker mark. */
  lemma TranscriptCount(raw: string, now: string)
    requires LooksLikeTranscript(raw)
    ensures |TranscriptMessages(raw, now)| == MarkCount(NonBlankLines(SplitOn(raw, "\n")))
  {
    ReadLinesCount(NonBlankLines(SplitOn(raw, "\n")), now);
  }

  /** Reading two runs of lines is reading the first, then the second from where it left off. */
  lemma {:induction false} ReadLinesAppend(st: Transcript, a: seq<string>, b: seq<string>, now: string)
    ensures ReadLines(st, a + b, now) == ReadLines(ReadLines(st, a, now), b, now)
    decreases |b|
  {
    if b == [] {
      assert a + b == a;
    } else {
      ReadLinesAppend(st, a, b[..|b| - 1], now);
      assert (a + b)[..|a + b| - 1] == a + b[..|b| - 1];
      assert (a + b)[|a + b| - 1] == b[|b| - 1];
    }
  }

  /** Lines before the first speaker mark change nothing. */
  lemma {:induction false} ReadLinesUnmarked(lines: seq<string>, now: string)
    requires MarkCount(lines) == 0
    ensures ReadLines(NoSpeaker, lines, now) == NoSpeaker
    decreases |lines|
  {
    if lines != [] {
      ReadLinesUnmarked(lines[..|lines| - 1], now);
    }
  }

  /** So the transcript read from the lines is the one read from its first mark line on. */
  lemma LeadingLinesDropped(pre: seq<string>, rest: seq<string>, now: string)
    requires MarkCount(pre) == 0
    ensures ReadLines(NoSpeaker, pre + rest, now) == ReadLines(NoSpeaker, rest, now)
  {
    ReadLinesAppend(NoSpeaker, pre, rest, now);
    ReadLinesUnmarked(pre, now);
  }

  /** A message the fallback finds: spoken by the user or ChatGPT, with one text item. */
  predicate TranscriptShaped(m: Message, now: string) {
    m.speaker in {"User", "ChatGPT"} && m.timestamp == now
    && m.items.Some? && |m.items.value| == 1 && m.items.value[0].Text?
  }

  lemma {:induction false} ReadLinesShape(lines: seq<string>, now: string)
    ensures var st := ReadLines(NoSpeaker, lines, now);
      (forall m :: m in st.done ==> TranscriptShaped(m, now))
      && (st.speaker.Some? ==> st.speaker.value in {"User", "ChatGPT"})
    decreases |lines|
  {
    if lines != [] {
      ReadLinesShape(lines[..|lines| - 1], now);
    }
  }

  /** Every message of the fallback is shaped so. */
  lemma TranscriptShape(raw: string, now: string)
    ensures forall m :: m in TranscriptMessages(raw, now) ==> TranscriptShaped(m, now)
  {
    ReadLinesShape(NonBlankLines(SplitOn(raw, "\n")), now);
  }

  // ---------------------------------------------------------------------------
  // extractChatContent
  // ---------------------------------------------------------------------------

  /** A conversation turn: the user part and the assistant part its queries found, if any. */
  datatype Turn = Turn(user: Option<Element>, assistant: Option<Element>)

  /** An element of the general query, and whether it has the dark background class. */
  datatype Possible = Possible(element: Element, darkBg: bool)

  /**
   * What the four approaches read from the page: the page title, the
   * conversation turns, the user and assistant elements of the role
   * queries, the elements of the general query, and the `textContent` of
   * the main element if there is one.
   */
  datatype Page = Page(
    title: string,
    turns: seq<Turn>,
    userElements: seq<Element>,
    assistantElements: seq<Element>,
    possible: seq<Possible>,
    main: Option<string>)

  datatype Conversation = Conversation(title: string, messages: seq<Message>)

  /** An element to process and the speaker its message gets. */
  datatype Candidate = Candidate(element: Option<Element>, speaker: string)

  /** Approach 1: each turn's user part, then its assistant part. */
  function TurnCandidates(turns: seq<Turn>): seq<Candidate>
    decreases |turns|
  {
    if turns == [] then []
    else
      var t := turns[|turns| - 1];
      TurnCandidates(turns[..|turns| - 1]) + [Candidate(t.user, "User"), Candidate(t.assistant, "ChatGPT")]
  }

  function Tagged(elements: seq<Element>, speaker: string): seq<Candidate> {
    seq(|elements|, i requires 0 <= i < |elements| => Candidate(Some(elements[i]), speaker))
  }

  /** Approach 2: every user element, then every assistant element. */
  function RoleCandidates(users: seq<Element>, assistants: seq<Element>): seq<Candidate> {
    Tagged(users, "User") + Tagged(assistants, "ChatGPT")
  }

  /**
   * Approach 3: an element is the user's when it has the dark background
   * class or an even index. The attribute test beside them asks for an
   * attribute named by a selector string, which no element has.
   */
  function GenericSpeaker(index: nat, darkBg: bool): string {
    if darkBg || index % 2 == 0 then "User" else "ChatGPT"
  }

  function GenericCandidates(possible: seq<Possible>): seq<Candidate> {
    seq(|possible|, i requires 0 <= i < |possible| =>
      Candidate(Some(possible[i].element), GenericSpeaker(i, possible[i].darkBg)))
  }

  /** The messages of the candidates that yield one, in order. */
  function Messages(candidates: seq<Candidate>, now: string): seq<Message>
    decreases |candidates|
  {
    if candidates == [] then []
    else
      var c := candidates[|candidates| - 1];
      Messages(candidates[..|candidates| - 1], now)
      + match MessageContent(c.element, c.speaker, now) case Some(m) => [m] case None => []
  }

  /** The processing loop of each approach. */
  method ProcessCandidates(candidates: seq<Candidate>, now: string) returns (messages: seq<Message>)
    ensures messages == Messages(candidates, now)
  {
    messages := [];
    for i := 0 to |candidates|
      invariant messages == Messages(candidates[..i], now)
    {
      assert candidates[..i + 1][..i] == candidates[..i];
      var msg := ProcessMessageContent(candidates[i].element, candidates[i].speaker, now);
      if msg.Some? {
        messages := messages + [msg.value];
      }
    }
    assert candidates[..|candidates|] == candidates;
  }

  /** The messages of the first approach that finds any. */
  function FoundMessages(page: Page, now: string): seq<Message> {
    var byTurns := Messages(TurnCandidates(page.turns), now);
    if byTurns != [] then byTurns
    else
      var byRoles := Messages(RoleCandidates(page.userElements, page.assistantElements), now);
      if byRoles != [] then byRoles
      else
        var byBlocks := Messages(GenericCandidates(page.possible), now);
        if byBlocks != [] then byBlocks
        else if page.main.Some? then TranscriptMessages(page.main.value, now)
        else []
  }

  const FailureText := "The content extraction failed. Please try refreshing the page and trying again."

  function SystemMessage(text: string, now: string): Message {
    Message("System", now, Some([Text(text, None)]))
  }

  /**
   * The conversation the page script reports. `error` stands for an
   * exception raised while reading the page, with its message.
   */
  function ChatContent(page: Page, error: Option<string>, now: string): (c: Conversation)
    ensures |c.messages| >= 1
  {
    if error.Some? then
      Conversation("Extraction Error", [SystemMessage("Error extracting content: " + error.value, now)])
    else
      var found := FoundMessages(page, now);
      Conversation(ConversationTitle(page.title), if found == [] then [SystemMessage(FailureText, now)] else found)
  }

  /** `extractChatContent`. */
  method ExtractChatContent(page: Page, error: Option<string>, now: string) returns (c: Conversation)
    ensures c == ChatContent(page, error, now)
    ensures |c.messages| >= 1
  {
    if error.Some? {
      return Conversation("Extraction Error", [SystemMessage("Error extracting content: " + error.value, now)]);
    }
    var title := ConversationTitle(page.title);
    var messages := ProcessCandidates(TurnCandidates(page.turns), now);
    if messages == [] {
      messages := ProcessCandidates(RoleCandidates(page.userElements, page.assistantElements), now);
    }
    if messages == [] {
      messages := ProcessCandidates(GenericCandidates(page.possible), now);
    }
    if messages == [] && page.main.Some? {
      messages := ParseTranscript(page.main.value, now);
    }
    if messages == [] {
      messages := [SystemMessage(FailureText, now)];
    }
    c := Conversation(title, messages);
  }

  // ---------------------------------------------------------------------------
  // What the reported conversation looks like
  // ---------------------------------------------------------------------------

  predicate ChatSpeaker(speaker: string) { speaker == "User" || speaker == "ChatGPT" }

  /** Every message of the approaches has items and a chat speaker, when every candidate has a chat speaker. */
  lemma {:induction false} MessagesShape(candidates: seq<Candidate>, now: string)
    requires forall i :: 0 <= i < |candidates| ==> ChatSpeaker(candidates[i].speaker)
    ensures forall m :: m in Messages(candidates, now) ==> HasItems(m) && ChatSpeaker(m.speaker)
    decreases |candidates|
  {
    if candidates != [] {
      var init := candidates[..|candidates| - 1];
      MessagesShape(init, now);
      var c := candidates[|candidates| - 1];
      assert ChatSpeaker(c.speaker);
    }
  }

  lemma TurnCandidatesSpeakers(turns: seq<Turn>)
    ensures forall i :: 0 <= i < |TurnCandidates(turns)| ==> ChatSpeaker(TurnCandidates(turns)[i].speaker)
  {
    if turns != [] {
      TurnCandidatesSpeakers(turns[..|turns| - 1]);
    }
  }

  /** Every message found has items and is spoken by the user or ChatGPT. */
  lemma FoundMessagesShape(page: Page, now: string)
    ensures forall m :: m in FoundMessages(page, now) ==> HasItems(m) && ChatSpeaker(m.speaker)
  {
    TurnCandidatesSpeakers(page.turns);
    MessagesShape(TurnCandidates(page.turns), now);
    MessagesShape(RoleCandidates(page.userElements, page.assistantElements), now);
    MessagesShape(GenericCandidates(page.possible), now);
    if page.main.Some? {
      TranscriptShape(page.main.value, now);
    }
  }

  /**
   * The reported conversation always has a message, every message has
   * items, and a message comes from the system exactly when reading the
   * page failed or no approach found a message.
   */
  lemma ChatContentShape(page: Page, error: Option<string>, now: string)
    ensures forall m :: m in ChatContent(page, error, now).messages ==> HasItems(m)
    ensures forall m :: m in ChatContent(page, error, now).messages ==>
      (m.speaker == "System" <==> error.Some? || FoundMessages(page, now) == [])
  {
    FoundMessagesShape(page, now);
  }

  /**
   * Every element of the general query becomes one candidate, at its own
   * index, and it is the user's exactly when it has the dark background
   * class or an even index.
   */
  lemma GenericSpeakerParity(possible: seq<Possible>)
    ensures |GenericCandidates(possible)| == |possible|
    ensures forall i :: 0 <= i < |possible| ==>
      GenericCandidates(possible)[i].element == Some(possible[i].element)
    ensures forall i :: 0 <= i < |possible| ==>
      (GenericCandidates(possible)[i].speaker == "User" <==> possible[i].darkBg || i % 2 == 0)
    ensures forall i :: 0 <= i < |possible| ==>
      (GenericCandidates(possible)[i].speaker == "ChatGPT" <==> !possible[i].darkBg && i % 2 == 1)
  {
  }

  /** Without the dark background class, neighbouring elements of the general query alternate speakers. */
  lemma GenericAlternates(possible: seq<Possible>, i: nat)
    requires i + 1 < |possible| && !possible[i].darkBg && !possible[i + 1].darkBg
    ensures GenericCandidates(possible)[i].speaker != GenericCandidates(possible)[i + 1].speaker
  {
  }
}
