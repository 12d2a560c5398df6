/**
 * Equation text: the dedup key `normalizeEquation` (popup.js and, verbatim,
 * inside content.js's `processMessageBlock`), the display form
 * `formatEquation` (content.js), and the test that decides whether a text
 * item of the cleanup pass is really an equation.
 */
module EquationText {
  import opened JsText
  import opened Pattern

  // ---------------------------------------------------------------------------
  // normalizeEquation
  // ---------------------------------------------------------------------------

  /** `/F=ma|F=m\*a|F=m×a/i`, replaced by `F=ma`. */
  function NewtonLaw(t: string): Hit {
    if 4 <= |t| && EqualsIgnoreCase(t[..4], "F=ma") then Hit(4, "F=ma")
    else if 5 <= |t| && (EqualsIgnoreCase(t[..5], "F=m*a") || EqualsIgnoreCase(t[..5], "F=m×a")) then Hit(5, "F=ma")
    else Miss
  }

  predicate IsEqualsOrColon(c: char) { c == '=' || c == ':' }

  /** A dedup key: free of white space, of `:` and of upper-case letters. */
  predicate IsEquationKey(key: string) {
    forall i :: 0 <= i < |key| ==> !IsSpace(key[i]) && key[i] != ':' && !IsUpper(key[i])
  }

  predicate NoSpaceOrColon(c: char) { !IsSpace(c) && c != ':' }

  /**
   * The key two equations are compared by: white space removed, runs of `=`
   * and `:` made one `=`, the first spelling of Newton's law and of three
   * derivation phrases replaced by a canonical form, then lower-cased.
   */
  function NormalizeEquation(eq: string): (key: string)
    ensures eq == [] ==> key == []
    ensures IsEquationKey(key)
  {
    if eq == [] then []
    else
      LowerKey(CanonicalForms(Squeezed(eq)));
      Lower(CanonicalForms(Squeezed(eq)))
  }

  /** White space removed, then each run of `=` and `:` made one `=`. */
  function Squeezed(eq: string): (r: string)
    ensures AllChars(r, NoSpaceOrColon)
  {
    var noSpace := ReplaceRuns(Trim(eq), IsSpace, "");
    ReplaceRunsDeletes(Trim(eq), IsSpace, (c: char) => !IsSpace(c));
    var r := ReplaceRuns(noSpace, IsEqualsOrColon, "=");
    assert AllChars(r, NoSpaceOrColon) by {
      forall i | 0 <= i < |r| ensures NoSpaceOrColon(r[i]) {
        assert (r[i] in noSpace && !IsEqualsOrColon(r[i])) || r[i] in "=";
      }
    }
    r
  }

  /** The first spelling of Newton's law and of three derivation phrases replaced by a canonical form. */
  function CanonicalForms(s: string): (r: string)
    requires AllChars(s, NoSpaceOrColon)
    ensures AllChars(r, NoSpaceOrColon)
  {
    var s1 := ReplaceFirst(s, NewtonLaw);
    var s2 := ReplaceFirst(s1, LiteralIgnoreCase("differentiatebothsideswithrespecttotime", "dp/dt=d(mv)/dt"));
    var s3 := ReplaceFirst(s2, LiteralIgnoreCase("assumingmassmisconstant", "dp/dt=mdv/dt"));
    CanonicalFormsKeep();
    NewtonLawKeeps(s);
    ReplaceFirstLiteralKeeps(s1, "differentiatebothsideswithrespecttotime", "dp/dt=d(mv)/dt", NoSpaceOrColon);
    ReplaceFirstLiteralKeeps(s2, "assumingmassmisconstant", "dp/dt=mdv/dt", NoSpaceOrColon);
    ReplaceFirstLiteralKeeps(s3, "since=dv/dt=a", "F=ma", NoSpaceOrColon);
    ReplaceFirst(s3, LiteralIgnoreCase("since=dv/dt=a", "F=ma"))
  }

  /** The replacement texts carry no white space and no colon. */
  lemma CanonicalFormsKeep()
    ensures AllChars("F=ma", NoSpaceOrColon)
    ensures AllChars("dp/dt=d(mv)/dt", NoSpaceOrColon)
    ensures AllChars("dp/dt=mdv/dt", NoSpaceOrColon)
  {
  }

  lemma LowerKey(s: string)
    requires AllChars(s, NoSpaceOrColon)
    ensures IsEquationKey(Lower(s))
  {
  }

  lemma NewtonLawKeeps(s: string)
    requires AllChars(s, NoSpaceOrColon)
    ensures AllChars(ReplaceFirst(s, NewtonLaw), NoSpaceOrColon)
  {
    assert AllChars("F=ma", NoSpaceOrColon);
    assert forall t :: NewtonLaw(t).Hit? ==> NewtonLaw(t).out == "F=ma";
    ReplaceFirstKeeps(s, NewtonLaw, NoSpaceOrColon);
  }

  /** Equations that differ only in white space share one key. */
  lemma KeyIgnoresSpace(a: string, b: string)
    requires Strip(a, IsSpace) == Strip(b, IsSpace)
    ensures NormalizeEquation(a) == NormalizeEquation(b)
  {
    ReplaceRunsDelete(Trim(a), IsSpace);
    ReplaceRunsDelete(Trim(b), IsSpace);
    StripTrim(a);
    StripTrim(b);
    if a == [] || b == [] {
      var c := if a == [] then b else a;
      assert Strip(c, IsSpace) == [];
      assert NormalizeEquation(c) == [] by {
        assert ReplaceRuns(Trim(c), IsSpace, "") == [];
      }
    }
  }

  // ---------------------------------------------------------------------------
  // formatEquation
  // ---------------------------------------------------------------------------

  /** `/([A-Za-z])\1{2,}/g` replaced by `$1`: a run of three or more copies of a letter becomes one. */
  function RepeatedLetter(t: string): Hit {
    if |t| >= 3 && IsLetter(t[0]) && t[1] == t[0] && t[2] == t[0]
    then Hit(RunLen(t, c => c == t[0]), [t[0]])
    else Miss
  }

  predicate IsBrace(c: char) { c == '{' || c == '}' }
  predicate NotBrace(c: char) { !IsBrace(c) }

  /** `/\\frac\{([^{}]+)\}\{([^{}]+)\}/g` replaced by `$1/$2`. */
  function FracBraces(t: string): Hit {
    if !IsPrefix("\\frac{", t) then Miss
    else
      var n1 := RunLen(t[6..], NotBrace);
      if n1 == 0 || |t| < 8 + n1 || t[6 + n1] != '}' || t[7 + n1] != '{' then Miss
      else
        var n2 := RunLen(t[8 + n1..], NotBrace);
        if n2 == 0 || |t| < 9 + n1 + n2 || t[8 + n1 + n2] != '}' then Miss
        else Hit(9 + n1 + n2, t[6..6 + n1] + "/" + t[8 + n1..8 + n1 + n2])
  }

  /** `/\\frac ([^{])(.) ([^{])(.)/g` replaced by `$1$2/$3$4`. */
  function FracSpaced(t: string): Hit {
    if IsPrefix("\\frac ", t) && |t| >= 11 && t[6] != '{' && !IsLineTerminator(t[7])
       && t[8] == ' ' && t[9] != '{' && !IsLineTerminator(t[10])
    then Hit(11, [t[6], t[7], '/', t[9], t[10]])
    else Miss
  }

  /** `/([0-9a-zA-Z])op/g` replaced by `$1` followed by `rep`. */
  function AlnumThen(op: char, rep: string): string -> Hit {
    t => if |t| >= 2 && IsAlnum(t[0]) && t[1] == op then Hit(2, [t[0]] + rep) else Miss
  }

  /** `/op([0-9a-zA-Z])/g` replaced by `rep` followed by `$1`. */
  function ThenAlnum(op: char, rep: string): string -> Hit {
    t => if |t| >= 2 && t[0] == op && IsAlnum(t[1]) then Hit(2, rep + [t[1]]) else Miss
  }

  /** The LaTeX macros given a Unicode glyph, in the order they are replaced. */
  const Symbols: seq<(string, string)> := [
    ("\\alpha", "α"), ("\\beta", "β"), ("\\gamma", "γ"), ("\\delta", "δ"),
    ("\\theta", "θ"), ("\\pi", "π"), ("\\sigma", "σ"), ("\\mu", "μ"),
    ("\\infty", "∞"), ("\\times", "×"), ("\\cdot", "·"), ("\\div", "÷"),
    ("\\approx", "≈"), ("\\neq", "≠"), ("\\ne", "≠"), ("\\geq", "≥"), ("\\leq", "≤")
  ]

  /** One global literal replace per table entry, in table order. */
  function ReplaceLiterals(s: string, table: seq<(string, string)>): string
    decreases |table|
  {
    if table == [] then s
    else ReplaceLiterals(ReplaceAll(s, Literal(table[0].0, table[0].1)), table[1..])
  }

  /** `/\\[a-zA-Z]+/g` replaced by nothing. */
  function LatexCommand(t: string): Hit {
    if |t| >= 2 && t[0] == '\\' && IsLetter(t[1]) then Hit(1 + RunLen(t[1..], IsLetter), "") else Miss
  }

  /** `/\\left|\\right/g` replaced by nothing. */
  function LeftRight(t: string): Hit {
    if IsPrefix("\\left", t) then Hit(5, "")
    else if IsPrefix("\\right", t) then Hit(6, "")
    else Miss
  }

  /** The two fraction rewrites. */
  function Fractions(s: string): string {
    ReplaceAll(ReplaceAll(s, FracBraces), FracSpaced)
  }

  /** The six rewrites that put spaces around `+` and `-` and turn `*` into `×`. */
  function OperatorSpacing(s: string): string {
    ReplaceAll(ReplaceAll(ReplaceAll(ReplaceAll(ReplaceAll(ReplaceAll(s,
      AlnumThen('+', " + ")), ThenAlnum('+', "+ ")),
      AlnumThen('-', " - ")), ThenAlnum('-', "- ")),
      AlnumThen('*', " × ")), ThenAlnum('*', "× "))
  }

  /** Any remaining LaTeX command removed, then every brace. */
  function StripLatex(s: string): (r: string)
    ensures AllChars(r, NotBrace)
  {
    ReplaceRunsDeletes(ReplaceAll(s, LatexCommand), IsBrace, NotBrace);
    ReplaceRuns(ReplaceAll(s, LatexCommand), IsBrace, "")
  }

  /** `\left` and `\right` removed, white-space runs made one space, then the ends trimmed. */
  function FinalCleanup(s: string): (r: string)
    requires AllChars(s, NotBrace)
    ensures AllChars(r, NotBrace) && IsTrimmed(r) && NoAdjacent(r, IsSpace)
  {
    var cleaned := ReplaceAll(s, LeftRight);
    ReplaceAllKeeps(s, LeftRight, NotBrace);
    var collapsed := ReplaceRuns(cleaned, IsSpace, " ");
    ReplaceRunsNoAdjacent(cleaned, IsSpace, ' ');
    TrimKeepsAll(collapsed, NotBrace);
    TrimNoAdjacent(collapsed, IsSpace);
    Trim(collapsed)
  }

  /** The display text of an equation: brace-free, trimmed, with single spaces. */
  function FormatEquation(eq: string): (r: string)
    ensures eq == [] ==> r == []
    ensures AllChars(r, NotBrace) && IsTrimmed(r) && NoAdjacent(r, IsSpace)
  {
    if eq == [] then []
    else
      var letters := Trim(ReplaceAll(eq, RepeatedLetter));
      FinalCleanup(StripLatex(ReplaceLiterals(OperatorSpacing(Fractions(letters)), Symbols)))
  }

  /** No letter is followed by two more copies of itself. */
  predicate NoTripleLetter(s: string) {
    forall i :: 0 <= i < |s| - 2 ==> !(IsLetter(s[i]) && s[i + 1] == s[i] && s[i + 2] == s[i])
  }

  lemma RepeatedLetterFirst(s: string)
    requires |s| > 0
    ensures |ReplaceAll(s, RepeatedLetter)| > 0 && ReplaceAll(s, RepeatedLetter)[0] == s[0]
  {
  }

  /** The first step of `formatEquation` leaves no run of three identical letters. */
  lemma {:induction false} RepeatedLettersCollapsed(s: string)
    ensures NoTripleLetter(ReplaceAll(s, RepeatedLetter))
    decreases |s|
  {
    if |s| > 0 {
      var r := ReplaceAll(s, RepeatedLetter);
      if Matches(RepeatedLetter, s) {
        var n := RunLen(s, c => c == s[0]);
        var rest := ReplaceAll(s[n..], RepeatedLetter);
        assert r == [s[0]] + rest;
        RepeatedLettersCollapsed(s[n..]);
        if |rest| > 0 {
          RepeatedLetterFirst(s[n..]);
          assert rest[0] != s[0];
        }
        forall i | 0 <= i < |r| - 2 ensures !(IsLetter(r[i]) && r[i + 1] == r[i] && r[i + 2] == r[i]) {
          if i > 0 { assert r[i] == rest[i - 1] && r[i + 1] == rest[i] && r[i + 2] == rest[i + 1]; }
        }
      } else {
        var rest := ReplaceAll(s[1..], RepeatedLetter);
        assert r == [s[0]] + rest;
        RepeatedLettersCollapsed(s[1..]);
        forall i | 0 <= i < |r| - 2 ensures !(IsLetter(r[i]) && r[i + 1] == r[i] && r[i + 2] == r[i]) {
          if i > 0 {
            assert r[i] == rest[i - 1] && r[i + 1] == rest[i] && r[i + 2] == rest[i + 1];
          } else {
            SecondAndThird(s);
          }
        }
      }
    }
  }

  /** Where no run starts at `s[0]`, the result's second and third characters rule out a triple at the front. */
  lemma SecondAndThird(s: string)
    requires |s| > 0 && !Matches(RepeatedLetter, s)
    ensures var r := ReplaceAll(s, RepeatedLetter);
      |r| > 2 ==> !(IsLetter(r[0]) && r[1] == r[0] && r[2] == r[0])
  {
    var r := ReplaceAll(s, RepeatedLetter);
    var rest := ReplaceAll(s[1..], RepeatedLetter);
    assert r == [s[0]] + rest;
    if |s| > 1 {
      var t := s[1..];
      RepeatedLetterFirst(t);
      if Matches(RepeatedLetter, t) {
        var n := RunLen(t, c => c == t[0]);
        assert rest == [t[0]] + ReplaceAll(t[n..], RepeatedLetter);
        if |t| > n { RepeatedLetterFirst(t[n..]); }
        assert |r| > 2 ==> r[2] != r[1];
      } else {
        assert rest == [t[0]] + ReplaceAll(t[1..], RepeatedLetter);
        if |t| > 1 { RepeatedLetterFirst(t[1..]); }
        assert |r| > 2 ==> r[..3] == s[..3];
      }
    }
  }

  // ---------------------------------------------------------------------------
  // What formatEquation keeps and what it rewrites
  // ---------------------------------------------------------------------------

  /** A character that starts no LaTeX rewrite, is no brace, and is white space only as a plain space. */
  predicate CleanChar(c: char) {
    c != '\\' && !IsBrace(c) && (IsSpace(c) ==> c == ' ')
  }

  /** A character none of the rewrites of `formatEquation` can start at or change. */
  predicate PlainChar(c: char) {
    CleanChar(c) && c != '+' && c != '-' && c != '*'
  }

  lemma PlainIsClean(s: string)
    requires AllChars(s, PlainChar)
    ensures AllChars(s, CleanChar)
  {
    forall i | 0 <= i < |s| ensures CleanChar(s[i]) { assert PlainChar(s[i]); }
  }

  /** Equation text that is already in display form. */
  predicate IsPlainEquation(s: string) {
    s != [] && IsTrimmed(s) && NoAdjacent(s, IsSpace) && NoTripleLetter(s) && AllChars(s, PlainChar)
  }

  /** Without a backslash no LaTeX pattern matches anywhere. */
  lemma LatexPatternsMiss(s: string)
    requires AllChars(s, CleanChar)
    ensures forall i :: 0 <= i < |s| ==> !Matches(FracSpaced, s[i..])
    ensures forall i :: 0 <= i < |s| ==> !Matches(LatexCommand, s[i..])
    ensures forall i :: 0 <= i < |s| ==> !Matches(LeftRight, s[i..])
  {
    forall i | 0 <= i < |s| ensures s[i..][0] != '\\' {
      assert CleanChar(s[i]);
    }
  }

  lemma FracBracesMiss(s: string)
    requires AllChars(s, CleanChar)
    ensures forall i :: 0 <= i < |s| ==> !Matches(FracBraces, s[i..])
  {
    forall i | 0 <= i < |s| ensures s[i..][0] != '\\' {
      assert CleanChar(s[i]);
    }
  }

  /** Text without `op` is left alone by both rewrites around `op`. */
  lemma OperatorMisses(s: string, op: char, rep: string, rep': string)
    requires forall i :: 0 <= i < |s| ==> s[i] != op
    ensures ReplaceAll(s, AlnumThen(op, rep)) == s
    ensures ReplaceAll(s, ThenAlnum(op, rep')) == s
  {
    forall i | 0 <= i < |s| ensures !Matches(AlnumThen(op, rep), s[i..]) {
      if i + 1 < |s| { assert s[i..][1] == s[i + 1]; }
    }
    ReplaceAllNoMatch(s, AlnumThen(op, rep));
    forall i | 0 <= i < |s| ensures !Matches(ThenAlnum(op, rep'), s[i..]) {
      assert s[i..][0] == s[i];
    }
    ReplaceAllNoMatch(s, ThenAlnum(op, rep'));
  }

  lemma OperatorSpacingKeeps(s: string)
    requires AllChars(s, PlainChar)
    ensures OperatorSpacing(s) == s
  {
    OperatorMisses(s, '+', " + ", "+ ");
    OperatorMisses(s, '-', " - ", "- ");
    OperatorMisses(s, '*', " × ", "× ");
  }

  /** Every macro in the glyph table starts with a backslash. */
  lemma SymbolsEscaped()
    ensures forall k :: 0 <= k < |Symbols| ==> |Symbols[k].0| > 0 && Symbols[k].0[0] == '\\'
  {
  }

  /** Text without a backslash is left alone by a table of backslash macros. */
  lemma {:induction false} ReplaceLiteralsKeeps(s: string, table: seq<(string, string)>)
    requires AllChars(s, CleanChar)
    requires forall k :: 0 <= k < |table| ==> |table[k].0| > 0 && table[k].0[0] == '\\'
    ensures ReplaceLiterals(s, table) == s
    decreases |table|
  {
    if table != [] {
      var m := Literal(table[0].0, table[0].1);
      forall i | 0 <= i < |s| ensures !Matches(m, s[i..]) {
        assert CleanChar(s[i]);
      }
      ReplaceAllNoMatch(s, m);
      ReplaceLiteralsKeeps(s, table[1..]);
    }
  }

  /** Brace- and backslash-free text passes through `StripLatex` unchanged. */
  lemma StripLatexKeeps(s: string)
    requires AllChars(s, CleanChar)
    ensures StripLatex(s) == s
  {
    LatexPatternsMiss(s);
    ReplaceAllNoMatch(s, LatexCommand);
    forall i | 0 <= i < |s| ensures !IsBrace(s[i]) { assert CleanChar(s[i]); }
    ReplaceRunsIdentity(s, IsBrace, "");
  }

  /** Trimmed, single-spaced text without `\left` or `\right` passes through `FinalCleanup` unchanged. */
  lemma FinalCleanupKeeps(s: string)
    requires AllChars(s, CleanChar) && IsTrimmed(s) && NoAdjacent(s, IsSpace)
    ensures AllChars(s, NotBrace) && FinalCleanup(s) == s
  {
    forall i | 0 <= i < |s| ensures NotBrace(s[i]) && (IsSpace(s[i]) ==> s[i] == ' ') { assert CleanChar(s[i]); }
    LatexPatternsMiss(s);
    ReplaceAllNoMatch(s, LeftRight);
    ReplaceRunsFixed(s, IsSpace, ' ');
    assert [' '] == " ";
    TrimOfTrimmed(s);
  }

  /** The stages after the operator spacing give trimmed, single-spaced, LaTeX-free text back unchanged. */
  lemma AfterSpacingKeeps(s: string)
    requires AllChars(s, CleanChar) && IsTrimmed(s) && NoAdjacent(s, IsSpace)
    ensures FinalCleanup(StripLatex(ReplaceLiterals(s, Symbols))) == s
  {
    SymbolsEscaped();
    ReplaceLiteralsKeeps(s, Symbols);
    StripLatexKeeps(s);
    FinalCleanupKeeps(s);
  }

  /** The stages after the fraction rewrites give display-form text back unchanged. */
  lemma AfterFractionsKeeps(s: string)
    requires AllChars(s, PlainChar) && IsTrimmed(s) && NoAdjacent(s, IsSpace)
    ensures FinalCleanup(StripLatex(ReplaceLiterals(OperatorSpacing(s), Symbols))) == s
  {
    OperatorSpacingKeeps(s);
    PlainIsClean(s);
    AfterSpacingKeeps(s);
  }

  /** Trimmed text without a tripled letter passes the first step unchanged. */
  lemma LettersKept(s: string)
    requires NoTripleLetter(s) && IsTrimmed(s)
    ensures Trim(ReplaceAll(s, RepeatedLetter)) == s
  {
    forall i | 0 <= i < |s| ensures !Matches(RepeatedLetter, s[i..]) {
      if i + 2 < |s| { assert s[i..][1] == s[i + 1] && s[i..][2] == s[i + 2]; }
    }
    ReplaceAllNoMatch(s, RepeatedLetter);
    TrimOfTrimmed(s);
  }

  /** Text without a backslash passes the fraction rewrites unchanged. */
  lemma FractionsKeep(s: string)
    requires AllChars(s, CleanChar)
    ensures Fractions(s) == s
  {
    FracBracesMiss(s);
    ReplaceAllNoMatch(s, FracBraces);
    LatexPatternsMiss(s);
    ReplaceAllNoMatch(s, FracSpaced);
  }

  /** Equation text already in display form is returned unchanged. */
  lemma FormatEquationKeeps(s: string)
    requires IsPlainEquation(s)
    ensures FormatEquation(s) == s
  {
    LettersKept(s);
    PlainIsClean(s);
    FractionsKeep(s);
    AfterFractionsKeeps(s);
  }

  /** Two texts without a tripled letter still have none when joined at a non-letter. */
  lemma NoTripleJoin(x: string, y: string)
    requires NoTripleLetter(x) && NoTripleLetter(y)
    requires x == [] || y == [] || !IsLetter(x[|x| - 1]) || !IsLetter(y[0])
    ensures NoTripleLetter(x + y)
  {
    var z := x + y;
    forall i | 0 <= i < |z| - 2 ensures !(IsLetter(z[i]) && z[i + 1] == z[i] && z[i + 2] == z[i]) {
      if i + 2 < |x| {
        assert z[i] == x[i] && z[i + 1] == x[i + 1] && z[i + 2] == x[i + 2];
      } else if i >= |x| {
        assert z[i] == y[i - |x|] && z[i + 1] == y[i - |x| + 1] && z[i + 2] == y[i - |x| + 2];
      } else {
        assert z[|x| - 1] == x[|x| - 1] && z[|x|] == y[0];
      }
    }
  }

  /** The text `\frac{a}{b}`. */
  function FracText(a: string, b: string): string {
    "\\frac{" + a + "}{" + b + "}"
  }

  lemma FracTextNoTriple(a: string, b: string)
    requires NoTripleLetter(a) && NoTripleLetter(b)
    ensures NoTripleLetter(FracText(a, b))
  {
    NoTripleJoin("\\frac{", a);
    NoTripleJoin("\\frac{" + a, "}{");
    NoTripleJoin("\\frac{" + a + "}{", b);
    NoTripleJoin("\\frac{" + a + "}{" + b, "}");
  }

  /** `\frac{a}{b}` with brace-free, non-empty `a` and `b` is one match of the braced fraction rewrite, giving `a/b`. */
  lemma FracBracesWhole(a: string, b: string)
    requires a != [] && b != [] && AllChars(a, NotBrace) && AllChars(b, NotBrace)
    ensures var t := FracText(a, b);
      Matches(FracBraces, t) && FracBraces(t) == Hit(|t|, a + "/" + b)
  {
    var t := FracText(a, b);
    var n1 := |a|;
    assert t[..6] == "\\frac{";
    assert t[6..] == a + "}{" + b + "}";
    RunLenIs(t[6..], NotBrace, n1);
    assert t[6 + n1] == '}' && t[7 + n1] == '{';
    assert t[8 + n1..] == b + "}";
    RunLenIs(t[8 + n1..], NotBrace, |b|);
    assert t[6..6 + n1] == a;
    assert t[8 + n1..8 + n1 + |b|] == b;
  }

  /** `\frac{a}{b}` is already trimmed and has no tripled letter, so the first step keeps it. */
  lemma FracLettersKept(a: string, b: string)
    requires NoTripleLetter(a) && NoTripleLetter(b)
    ensures Trim(ReplaceAll(FracText(a, b), RepeatedLetter)) == FracText(a, b)
  {
    var t := FracText(a, b);
    FracTextNoTriple(a, b);
    assert t[0] == '\\' && t[|t| - 1] == '}';
    LettersKept(t);
  }

  /** The fraction rewrites turn `\frac{a}{b}` into `a/b`. */
  lemma FracRewritten(a: string, b: string)
    requires IsPlainEquation(a) && IsPlainEquation(b)
    ensures Fractions(FracText(a, b)) == a + "/" + b
  {
    var t := FracText(a, b);
    var r := a + "/" + b;
    forall i | 0 <= i < |a| ensures NotBrace(a[i]) { assert PlainChar(a[i]); }
    forall i | 0 <= i < |b| ensures NotBrace(b[i]) { assert PlainChar(b[i]); }
    FracBracesWhole(a, b);
    assert t[|t|..] == [];
    assert ReplaceAll(t, FracBraces) == r;
    PlainDivide(a, b);
    PlainIsClean(r);
    LatexPatternsMiss(r);
    ReplaceAllNoMatch(r, FracSpaced);
  }

  /** `formatEquation` turns `\frac{a}{b}` into `a/b` when both parts are already in display form. */
  lemma FracFormatted(a: string, b: string)
    requires IsPlainEquation(a) && IsPlainEquation(b)
    ensures FormatEquation(FracText(a, b)) == a + "/" + b
  {
    FracLettersKept(a, b);
    FracRewritten(a, b);
    PlainDivide(a, b);
    AfterFractionsKeeps(a + "/" + b);
  }

  /** Two display-form texts joined by `/` are display-form text. */
  lemma PlainDivide(a: string, b: string)
    requires IsPlainEquation(a) && IsPlainEquation(b)
    ensures AllChars(a + "/" + b, PlainChar) && IsTrimmed(a + "/" + b) && NoAdjacent(a + "/" + b, IsSpace)
  {
    var r := a + "/" + b;
    forall i | 0 <= i < |r| ensures PlainChar(r[i]) {
      if i < |a| { assert r[i] == a[i]; } else if i > |a| { assert r[i] == b[i - |a| - 1]; }
    }
    forall i | 0 <= i < |r| - 1 ensures !(IsSpace(r[i]) && IsSpace(r[i + 1])) {
      if i + 1 < |a| { assert r[i] == a[i] && r[i + 1] == a[i + 1]; }
      else if i > |a| { assert r[i] == b[i - |a| - 1] && r[i + 1] == b[i - |a|]; }
    }
    assert r[0] == a[0] && r[|r| - 1] == b[|b| - 1];
  }

  /** The glyph an operator is shown as: `*` becomes `×`, `+` and `-` stay. */
  function Glyph(op: char): char {
    if op == '*' then '×' else op
  }

  /** An operator between two alphanumerics is matched once by the rewrite on its left. */
  lemma SpacedLeft(x: char, op: char, rep: string, y: char)
    requires IsAlnum(x) && !IsAlnum(op)
    ensures ReplaceAll([x, op, y], AlnumThen(op, rep)) == [x] + rep + [y]
  {
    var s := [x, op, y];
    var m := AlnumThen(op, rep);
    assert m(s) == Hit(2, [x] + rep);
    assert s[2..] == [y];
    assert m([y]) == Miss;
    assert ReplaceAll([y], m) == [y] + ReplaceAll([y][1..], m);
    assert [y][1..] == [];
    assert ReplaceAll(s, m) == [x] + rep + ReplaceAll([y], m);
  }

  /** Where every `op` is followed by a non-alphanumeric, the rewrite on its right changes nothing. */
  lemma RightMisses(s: string, op: char, rep: string)
    requires forall i :: 0 <= i < |s| - 1 && s[i] == op ==> !IsAlnum(s[i + 1])
    ensures ReplaceAll(s, ThenAlnum(op, rep)) == s
  {
    forall i | 0 <= i < |s| ensures !Matches(ThenAlnum(op, rep), s[i..]) {
      if i + 1 < |s| { assert s[i..][0] == s[i] && s[i..][1] == s[i + 1]; }
    }
    ReplaceAllNoMatch(s, ThenAlnum(op, rep));
  }

  lemma PlusSpaced(x: char, y: char)
    requires IsAlnum(x) && IsAlnum(y)
    ensures OperatorSpacing([x, '+', y]) == [x, ' ', '+', ' ', y]
  {
    var u := [x, ' ', '+', ' ', y];
    SpacedLeft(x, '+', " + ", y);
    assert [x] + " + " + [y] == u;
    RightMisses(u, '+', "+ ");
    OperatorMisses(u, '-', " - ", "- ");
    OperatorMisses(u, '*', " × ", "× ");
  }

  lemma MinusSpaced(x: char, y: char)
    requires IsAlnum(x) && IsAlnum(y)
    ensures OperatorSpacing([x, '-', y]) == [x, ' ', '-', ' ', y]
  {
    var u := [x, ' ', '-', ' ', y];
    OperatorMisses([x, '-', y], '+', " + ", "+ ");
    SpacedLeft(x, '-', " - ", y);
    assert [x] + " - " + [y] == u;
    RightMisses(u, '-', "- ");
    OperatorMisses(u, '*', " × ", "× ");
  }

  lemma TimesSpaced(x: char, y: char)
    requires IsAlnum(x) && IsAlnum(y)
    ensures OperatorSpacing([x, '*', y]) == [x, ' ', '×', ' ', y]
  {
    var s := [x, '*', y];
    var u := [x, ' ', '×', ' ', y];
    OperatorMisses(s, '+', " + ", "+ ");
    OperatorMisses(s, '-', " - ", "- ");
    SpacedLeft(x, '*', " × ", y);
    assert [x] + " × " + [y] == u;
    OperatorMisses(u, '*', " × ", "× ");
  }

  /** `x op y` with alphanumeric `x` and `y` gets one space on each side of the operator's glyph. */
  lemma OperatorSpacingOne(x: char, op: char, y: char)
    requires IsAlnum(x) && IsAlnum(y) && (op == '+' || op == '-' || op == '*')
    ensures OperatorSpacing([x, op, y]) == [x, ' ', Glyph(op), ' ', y]
  {
    if op == '+' { PlusSpaced(x, y); } else if op == '-' { MinusSpaced(x, y); } else { TimesSpaced(x, y); }
  }

  lemma SpacedIsClean(x: char, op: char, y: char)
    requires IsAlnum(x) && IsAlnum(y) && (op == '+' || op == '-' || op == '*')
    ensures var u := [x, ' ', Glyph(op), ' ', y];
      AllChars(u, CleanChar) && IsTrimmed(u) && NoAdjacent(u, IsSpace)
  {
  }

  /** The steps before the operator spacing keep `x op y`. */
  lemma OperatorFrontKept(x: char, op: char, y: char)
    requires IsAlnum(x) && IsAlnum(y) && (op == '+' || op == '-' || op == '*')
    ensures Fractions(Trim(ReplaceAll([x, op, y], RepeatedLetter))) == [x, op, y]
  {
    var s := [x, op, y];
    assert NoTripleLetter(s) && IsTrimmed(s) && AllChars(s, CleanChar);
    LettersKept(s);
    FractionsKeep(s);
  }

  /** `formatEquation` writes `x+y`, `x-y` and `x*y` as `x + y`, `x - y` and `x × y`. */
  lemma OperatorFormatted(x: char, op: char, y: char)
    requires IsAlnum(x) && IsAlnum(y) && (op == '+' || op == '-' || op == '*')
    ensures FormatEquation([x, op, y]) == [x, ' ', Glyph(op), ' ', y]
  {
    var u := [x, ' ', Glyph(op), ' ', y];
    OperatorFrontKept(x, op, y);
    OperatorSpacingOne(x, op, y);
    SpacedIsClean(x, op, y);
    AfterSpacingKeeps(u);
  }

  // ---------------------------------------------------------------------------
  // Equation-shaped text (the cleanup pass's reclassification test)
  // ---------------------------------------------------------------------------

  const NewtonPattern: seq<Tok> := [Ch('F'), Spaces(0), Ch('='), Spaces(0), Ch('m'), Spaces(0), Ch('a')]
  const EinsteinPattern: seq<Tok> := [Ch('E'), Spaces(0), Ch('='), Spaces(0), Ch('m'), Spaces(0), Ch('c'), Opt('^'), Ch('2')]
  const MomentumPattern: seq<Tok> := [Ch('p'), Spaces(0), Ch('='), Spaces(0), Ch('m'), Spaces(0), Ch('v')]
  const DtPattern: seq<Tok> := [Ch('d'), Ch('t'), Spaces(1), Ch('d'), OneOf("pv")]
  const MdvDtPattern: seq<Tok> := [Ch('='), Spaces(0), Ch('m'), Spaces(0), Ch('d'), Ch('v'), Ch('/'), Ch('d'), Ch('t')]

  /** The LaTeX macros whose presence marks a text as an equation. */
  const EquationMacros: seq<string> :=
    ["\\frac", "\\int", "\\sum", "\\sqrt", "\\alpha", "\\beta", "\\gamma", "\\delta", "\\partial", "\\nabla"]

  /** The eleven tests the cleanup pass applies to a trimmed text item before calling it an equation. */
  predicate IsEquationLike(content: string) {
    Occurs(content, NewtonPattern) || Occurs(content, EinsteinPattern) || Occurs(content, MomentumPattern)
    || Occurs(content, DtPattern) || Occurs(content, MdvDtPattern)
    || exists k :: 0 <= k < |EquationMacros| && Contains(content, EquationMacros[k])
  }
}
