/**
 * The integer and line logic of drawing one message: the caption stripped
 * from the lines of a code block, the bullet level of list items, and the
 * page-break rules. Page sizes and block heights are integer parameters;
 * what the PDF library measures is not part of this model.
 */
module Render {
  import opened Optional
  import opened JsText
  import opened Pattern
  import opened Cleanup

  // ---------------------------------------------------------------------------
  // Code block lines
  // ---------------------------------------------------------------------------

  /** The content trimmed, split at line feeds, each line with its trailing white space removed. */
  function CodeLines(content: string): (lines: seq<string>)
    ensures |lines| >= 1
    ensures forall k :: 0 <= k < |lines| ==> !Contains(lines[k], "\n")
    ensures forall k :: 0 <= k < |lines| ==> lines[k] == [] || !IsSpace(lines[k][|lines[k]| - 1])
  {
    var pieces := SplitOn(Trim(content), "\n");
    SplitPiecesFree(Trim(content), "\n");
    seq(|pieces|, k requires 0 <= k < |pieces| => TrimEndFree(pieces[k]))
  }

  /** `replace(/\s+$/, '')` on a line without line feeds: the line without its trailing white space. */
  function TrimEndFree(line: string): (r: string)
    requires !Contains(line, "\n")
    ensures !Contains(r, "\n")
    ensures r == [] || !IsSpace(r[|r| - 1])
    ensures r == TrimEnd(line)
  {
    var r := TrimEnd(line);
    ContainsPrefixMono(line, |r|, |line|, "\n");
    assert line[..|line|] == line;
    r
  }

  /** The lines without the empty lines at the end. */
  function DropTrailingEmpty(lines: seq<string>): (r: seq<string>)
    ensures |r| <= |lines| && r == lines[..|r|]
    ensures r == [] || r[|r| - 1] != []
    ensures forall k :: |r| <= k < |lines| ==> lines[k] == []
    decreases |lines|
  {
    if lines == [] || lines[|lines| - 1] != [] then lines
    else DropTrailingEmpty(lines[..|lines| - 1])
  }

  /** The language names a code block's caption can start with. */
  const CaptionLanguages: set<string> := {
    "java", "python", "javascript", "js", "typescript", "ts", "html", "css", "c++", "c#",
    "ruby", "go", "rust", "php", "swift", "kotlin", "sql", "shell", "bash", "powershell",
    "json", "yaml", "xml", "markdown", "plaintext", "text"
  }

  /** The caption key of a line: trimmed and lower-cased. */
  function CaptionKey(line: string): string {
    Lower(Trim(line))
  }

  /** `/^copy\s+edit$/`. */
  predicate CopyEdit(key: string) {
    MatchLen(key, Lit("copy") + [Spaces(1)] + Lit("edit")) == Some(|key|)
  }

  /** `/^\d{1,2}o$/`: the model tag ChatGPT shows, such as `4o`. */
  predicate ModelTag(key: string) {
    (|key| == 2 && IsDigit(key[0]) && key[1] == 'o')
    || (|key| == 3 && IsDigit(key[0]) && IsDigit(key[1]) && key[2] == 'o')
  }

  /** Whether the first line is a caption: a language name, copy, edit, copy edit or a model tag. */
  predicate FirstCaption(line: string) {
    var key := CaptionKey(line);
    key in CaptionLanguages || CopyEdit(key) || key == "copy" || key == "edit" || ModelTag(key)
  }

  /** Whether the line after it is a button caption: only `copy` or `edit`. */
  predicate SecondCaption(line: string) {
    CaptionKey(line) in {"copy", "edit"}
  }

  /**
   * Drops the first line when `first` holds for it, then the line now in
   * front when `second` holds for it, from lines already cleaned at the end.
   */
  function StripLeading(lines: seq<string>, first: string -> bool, second: string -> bool): (r: seq<string>)
  {
    if lines == [] then []
    else
      var rest := if first(lines[0]) then lines[1..] else lines;
      if rest != [] && second(rest[0]) then rest[1..] else rest
  }

  /** The lines a code item is drawn with. */
  function RenderedCodeLines(content: string): seq<string> {
    StripLeading(DropTrailingEmpty(CodeLines(content)), FirstCaption, SecondCaption)
  }

  /** The source's `pop` and `shift` loop over the code lines. */
  method CodeBlockLines(content: string) returns (lines: seq<string>)
    ensures lines == RenderedCodeLines(content)
  {
    lines := CodeLines(content);
    ghost var all := lines;
    while |lines| > 0 && lines[|lines| - 1] == []
      invariant DropTrailingEmpty(lines) == DropTrailingEmpty(all)
      decreases |lines|
    {
      lines := lines[..|lines| - 1];
    }
    lines := StripCaptionLines(lines);
  }

  /** The source's two `shift` calls: the caption line, then the button line. */
  method StripCaptionLines(cleaned: seq<string>) returns (lines: seq<string>)
    ensures lines == StripLeading(cleaned, FirstCaption, SecondCaption)
  {
    lines := cleaned;
    if |lines| > 0 {
      if FirstCaption(lines[0]) {
        lines := lines[1..];
      }
      if |lines| > 0 && SecondCaption(lines[0]) {
        lines := lines[1..];
      }
    }
  }

  /**
   * The drawn lines are the cleaned lines without at most two leading lines;
   * a first line goes only when one of the tests holds for it, a second only
   * when the first test held for the first and the second test holds for it;
   * a first line passing the first test always goes.
   */
  lemma StripLeadingBounds(lines: seq<string>, first: string -> bool, second: string -> bool)
    ensures var r := StripLeading(lines, first, second);
      var removed := |lines| - |r|;
      0 <= removed <= 2 && r == lines[removed..]
      && (removed >= 1 ==> first(lines[0]) || second(lines[0]))
      && (removed == 2 ==> first(lines[0]) && second(lines[1]))
      && (lines != [] && first(lines[0]) ==> removed >= 1)
  {
    if |lines| >= 2 && first(lines[0]) {
      assert lines[1..][1..] == lines[2..];
    }
  }

  predicate NoTrailingSpace(line: string) {
    line == [] || !IsSpace(line[|line| - 1])
  }

  /** Dropping leading lines keeps a property of every line and a non-empty last line. */
  lemma StripLeadingKeeps(lines: seq<string>, first: string -> bool, second: string -> bool)
    requires forall k :: 0 <= k < |lines| ==> NoTrailingSpace(lines[k])
    requires lines == [] || lines[|lines| - 1] != []
    ensures var r := StripLeading(lines, first, second);
      (r == [] || r[|r| - 1] != []) && forall k :: 0 <= k < |r| ==> NoTrailingSpace(r[k])
  {
    StripLeadingBounds(lines, first, second);
    var r := StripLeading(lines, first, second);
    var removed := |lines| - |r|;
    forall k | 0 <= k < |r| ensures NoTrailingSpace(r[k]) {
      assert r[k] == lines[removed + k];
    }
  }

  /** The drawn lines of a code block never end with an empty line or carry trailing white space. */
  lemma RenderedLinesClean(content: string)
    ensures var r := RenderedCodeLines(content);
      (r == [] || r[|r| - 1] != []) && forall k :: 0 <= k < |r| ==> NoTrailingSpace(r[k])
  {
    var all := CodeLines(content);
    var cleaned := DropTrailingEmpty(all);
    forall k | 0 <= k < |cleaned| ensures NoTrailingSpace(cleaned[k]) {
      assert cleaned[k] == all[k];
    }
    StripLeadingKeeps(cleaned, FirstCaption, SecondCaption);
  }

  /** A first line passing the first test and a second line passing the second test are both dropped. */
  lemma StripLeadingBoth(lines: seq<string>, first: string -> bool, second: string -> bool)
    requires |lines| >= 2 && first(lines[0]) && second(lines[1])
    ensures StripLeading(lines, first, second) == lines[2..]
  {
    assert lines[1..][1..] == lines[2..];
  }

  /** A first line passing the first test goes, and a second line failing the second test stays. */
  lemma StripLeadingFirstOnly(lines: seq<string>, first: string -> bool, second: string -> bool)
    requires |lines| >= 2 && first(lines[0]) && !second(lines[1])
    ensures StripLeading(lines, first, second) == lines[1..]
  {
  }

  /** `copy edit`, written on one line, passes the copy-edit pattern. */
  lemma CopyEditMatches()
    ensures CopyEdit("copy edit")
  {
    var t := "copy edit";
    var tail := [Spaces(1)] + Lit("edit");
    assert Lit("copy") + [Spaces(1)] + Lit("edit") == Lit("copy") + tail;
    MatchLit(t, "copy", tail);
    var u := t[4..];
    RunLenIs(u, IsSpace, 1);
    assert tail[0] == Spaces(1) && tail[1..] == Lit("edit") + [];
    MatchLit(u[1..], "edit", []);
    assert MatchLen(u[1..][4..], []) == Some(0);
    assert MatchLen(u[1..], tail[1..]) == Some(4);
    assert MatchLen(u, tail) == Some(5);
    assert MatchLen(t, Lit("copy") + tail) == Some(9);
  }

  lemma CopyEditKey()
    ensures CaptionKey("copy edit") == "copy edit"
  {
    var line := "copy edit";
    TrimOfTrimmed(line);
    forall i | 0 <= i < |line| ensures !IsUpper(line[i]) {
      assert line[i] in "copy edit";
    }
    LowerIdentity(line);
  }

  /** The line `copy edit` is a first-line caption and a fixed second-line one, but not a written second-line one. */
  lemma CopyEditCaption()
    ensures FirstCaption("copy edit") && ButtonCaption("copy edit") && !SecondCaption("copy edit")
  {
    CopyEditKey();
    CopyEditMatches();
    var key := CaptionKey("copy edit");
    assert CopyEdit(key);
    assert key !in {"copy", "edit"};
  }

  lemma JavaCaption()
    ensures FirstCaption("java")
  {
    TrimOfTrimmed("java");
    assert CaptionKey("java") == "java";
  }

  /**
   * A code block captioned `java` with `copy edit` on the next line: the
   * written check draws the `copy edit` line as code, the fixed one drops it.
   */
  lemma CopyEditSecondLineKept()
    ensures var lines := ["java", "copy edit", "System.out.println(1);"];
      StripLeading(lines, FirstCaption, SecondCaption) == ["copy edit", "System.out.println(1);"]
      && StripLeading(lines, FirstCaption, ButtonCaption) == ["System.out.println(1);"]
  {
    var lines := ["java", "copy edit", "System.out.println(1);"];
    JavaCaption();
    CopyEditCaption();
    StripLeadingFirstOnly(lines, FirstCaption, SecondCaption);
    StripLeadingBoth(lines, FirstCaption, ButtonCaption);
  }

  /** The button line the second check evidently means: copy, edit, or both on one line. */
  predicate ButtonCaption(line: string) {
    SecondCaption(line) || CopyEdit(CaptionKey(line))
  }

  /** The caption stripping with the second check accepting `copy edit` as well. */
  function RenderedCodeLinesFixed(content: string): seq<string> {
    StripLeading(DropTrailingEmpty(CodeLines(content)), FirstCaption, ButtonCaption)
  }

  /** With the fixed check a caption line and any button line after it are both dropped. */
  lemma FixedDropsCaptionAndButton(caption: string, button: string, rest: seq<string>)
    requires FirstCaption(caption) && ButtonCaption(button)
    ensures StripLeading([caption, button] + rest, FirstCaption, ButtonCaption) == rest
  {
    var lines := [caption, button] + rest;
    StripLeadingBoth(lines, FirstCaption, ButtonCaption);
    assert lines[2..] == rest;
  }

  /** A weaker second test drops whatever the stronger one drops, and at most the next line too. */
  lemma StripLeadingWeaker(lines: seq<string>, first: string -> bool, second: string -> bool, wider: string -> bool)
    requires forall line :: second(line) ==> wider(line)
    ensures var narrow := StripLeading(lines, first, second);
      var wide := StripLeading(lines, first, wider);
      |wide| <= |narrow| && wide == narrow[|narrow| - |wide|..]
  {
    if lines != [] {
      var rest := if first(lines[0]) then lines[1..] else lines;
      if rest != [] && !second(rest[0]) && wider(rest[0]) {
        assert rest[1..] == rest[|rest| - (|rest| - 1)..];
      }
    }
  }

  /** The fixed check differs from the written one only on a `copy edit` line: it drops what the written one drops. */
  lemma FixedExtendsWritten(lines: seq<string>)
    ensures var written := StripLeading(lines, FirstCaption, SecondCaption);
      var fixed := StripLeading(lines, FirstCaption, ButtonCaption);
      |fixed| <= |written| && fixed == written[|written| - |fixed|..]
  {
    forall line | SecondCaption(line) ensures ButtonCaption(line) { }
    StripLeadingWeaker(lines, FirstCaption, SecondCaption, ButtonCaption);
  }

  // ---------------------------------------------------------------------------
  // List indentation
  // ---------------------------------------------------------------------------

  /** The length of the white-space run after the bullet mark of trimmed content. */
  function SpaceAfterMark(content: string): (w: nat)
    requires |content| >= 1
    ensures w <= |content| - 1
  {
    RunLen(content[1..], IsSpace)
  }

  /**
   * The group of `/^[•*]\s+(\s*)/` when the pattern matches: `\s+` is greedy
   * and the group may be empty, so the run is taken whole and the group is
   * the empty text at its end.
   */
  function IndentGroup(content: string): (g: string)
    requires |content| >= 1
  {
    var w := SpaceAfterMark(content);
    content[1 + w..1 + w]
  }

  /** The indent level of a list line as the source computes it: at least 1, at most 3. */
  function IndentLevel(content: string): (level: nat)
  {
    var t := Trim(content);
    if StartsBullet(t) then
      var g := if SpaceAfterMark(t) >= 1 then IndentGroup(t) else [];
      Max(1, NestedLevel(g))
    else if StartsNumbered(t) then 1
    else 0
  }

  /** `Math.min(3, Math.floor(group.length / 2))` for a non-empty group, 0 otherwise. */
  function NestedLevel(g: string): (level: nat)
    ensures level <= 3
    ensures g == [] ==> level == 0
  {
    if |g| > 0 then Min(3, |g| / 2) else 0
  }

  function Min(a: int, b: int): int { if a <= b then a else b }
  function Max(a: int, b: int): int { if a >= b then a else b }

  /** The group is always empty, so every bullet is drawn at level 1 whatever its nesting. */
  lemma BulletLevelAlwaysOne(content: string)
    requires StartsBullet(Trim(content))
    ensures IndentLevel(content) == 1
  {
  }

  /** The level the nesting evidently means: half the white space beyond the first character after the mark. */
  function IndentLevelFixed(content: string): (level: nat)
  {
    var t := Trim(content);
    if StartsBullet(t) then BulletLevelFixed(SpaceAfterMark(t))
    else if StartsNumbered(t) then 1
    else 0
  }

  /** The intended level of a bullet followed by `w` white-space characters. */
  function BulletLevelFixed(w: nat): (level: nat)
    ensures 1 <= level <= 3
  {
    var extra := if w >= 1 then w - 1 else 0;
    Max(1, Min(3, extra / 2))
  }

  /** More white space after the mark never lowers the intended level. */
  lemma FixedLevelNesting(w1: nat, w2: nat)
    requires w1 <= w2
    ensures BulletLevelFixed(w1) <= BulletLevelFixed(w2)
  {
    var e1 := if w1 >= 1 then w1 - 1 else 0;
    var e2 := if w2 >= 1 then w2 - 1 else 0;
    assert e1 / 2 <= e2 / 2;
  }

  /** The line `•     nested` is already trimmed, starts with a bullet and has five spaces after the mark. */
  lemma NestedBulletShape()
    ensures Trim("•     nested") == "•     nested"
    ensures StartsBullet("•     nested") && SpaceAfterMark("•     nested") == 5
  {
    var t := "•     nested";
    assert t[0] == '•' && !IsSpace('•');
    assert !IsSpace(t[|t| - 1]);
    TrimOfTrimmed(t);
    assert t[..1] == "•";
    var u := t[1..];
    assert u[0] == ' ' && u[1] == ' ' && u[2] == ' ' && u[3] == ' ' && u[4] == ' ' && u[5] == 'n';
    forall i | 0 <= i < 5 ensures IsSpace(u[i]) {
    }
    RunLenIs(u, IsSpace, 5);
  }

  /** A bullet with five spaces after its mark: level 2 intended, level 1 drawn. */
  lemma NestedBulletFlattened()
    ensures IndentLevelFixed("•     nested") == 2
    ensures IndentLevel("•     nested") == 1
  {
    NestedBulletShape();
    assert BulletLevelFixed(5) == 2;
  }

  // ---------------------------------------------------------------------------
  // Page breaks
  // ---------------------------------------------------------------------------

  const Margin := 20

  /** Where a message starts: on a new page at the margin once the position is past the bottom margin. */
  function MessageStartY(y: int, pageHeight: int): (start: int)
    ensures start == y || start == Margin
    ensures start <= Max(y, Margin)
    ensures y <= pageHeight - Margin ==> start == y
    ensures start <= pageHeight - Margin || start == Margin
  {
    if y > pageHeight - Margin then Margin else y
  }

  /** Where a code block starts: on a new page when it would cross the bottom margin. */
  function CodeBlockStartY(y: int, blockHeight: int, pageHeight: int): (start: int)
    ensures start == y || start == Margin
    ensures y + blockHeight <= pageHeight - Margin ==> start == y
    ensures y + blockHeight > pageHeight - Margin ==> start == Margin
    ensures blockHeight <= pageHeight - 2 * Margin ==> start + blockHeight <= pageHeight - Margin
  {
    if y + blockHeight > pageHeight - Margin then Margin else y
  }
}
