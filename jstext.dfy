/**
 * The JavaScript string operations the extension relies on, written as
 * character-level functions: white space as JavaScript's `\s` and `trim`
 * see it, case mapping, `includes`/`indexOf`, `split`/`join`, and the two
 * shapes of regular-expression `replace` the source uses (a global replace
 * of every run of a character class, and a replace driven by a matcher that
 * decides, at the start of a suffix, whether and how the pattern matches).
 */
module JsText {
  import opened Optional

  // ---------------------------------------------------------------------------
  // Character classes
  // ---------------------------------------------------------------------------

  /** The white space beyond ASCII: the Unicode space separators, the line and paragraph separators and the byte order mark. */
  predicate IsUnicodeSpace(c: char) {
    c == '\U{A0}' || c == '\U{1680}' || ('\U{2000}' <= c <= '\U{200A}')
    || c == '\U{2028}' || c == '\U{2029}' || c == '\U{202F}' || c == '\U{205F}'
    || c == '\U{3000}' || c == '\U{FEFF}'
  }

  /** The characters matched by JavaScript's `\s` and removed by `String.prototype.trim`. */
  predicate IsSpace(c: char) {
    c == ' ' || ('\t' <= c <= '\r') || ('\U{A0}' <= c && IsUnicodeSpace(c))
  }

  /** The characters `.` does not match in a regular expression without the `s` flag. */
  predicate IsLineTerminator(c: char) {
    c == '\n' || c == '\r' || c == '\U{2028}' || c == '\U{2029}'
  }

  predicate IsDigit(c: char) { '0' <= c <= '9' }
  predicate IsUpper(c: char) { 'A' <= c <= 'Z' }
  predicate IsLower(c: char) { 'a' <= c <= 'z' }
  predicate IsLetter(c: char) { IsUpper(c) || IsLower(c) }
  predicate IsAlnum(c: char) { IsLetter(c) || IsDigit(c) }

  /** The printable ASCII range `\x20-\x7E`. */
  predicate IsPrintableAscii(c: char) { ' ' <= c <= '~' }

  predicate AllChars(s: string, p: char -> bool) {
    forall i :: 0 <= i < |s| ==> p(s[i])
  }

  /** No two neighbouring characters both satisfy `p`. */
  predicate NoAdjacent(s: string, p: char -> bool) {
    forall i :: 0 <= i < |s| - 1 ==> !(p(s[i]) && p(s[i + 1]))
  }

  // ---------------------------------------------------------------------------
  // Case mapping (ASCII letters)
  // ---------------------------------------------------------------------------

  function LowerChar(c: char): (d: char)
    ensures !IsUpper(d)
    ensures IsSpace(d) <==> IsSpace(c)
    ensures !IsLetter(c) ==> d == c
  {
    if IsUpper(c) then (c as int + 32) as char else c
  }

  /**
   * `toLowerCase()`, on ASCII letters: the result has no upper-case letter,
   * each upper-case letter becomes its lower-case partner at the same
   * index, and every other character stays as it was.
   */
  function Lower(s: string): (r: string)
    ensures |r| == |s|
    ensures forall i :: 0 <= i < |r| ==> !IsUpper(r[i])
    ensures forall i :: 0 <= i < |s| && IsUpper(s[i]) ==> IsLower(r[i]) && r[i] as int == s[i] as int + 32
    ensures forall i :: 0 <= i < |s| && !IsUpper(s[i]) ==> r[i] == s[i]
  {
    seq(|s|, i requires 0 <= i < |s| => LowerChar(s[i]))
  }

  /** Text without upper-case ASCII letters is its own lower-case form. */
  lemma LowerIdentity(s: string)
    requires forall i :: 0 <= i < |s| ==> !IsUpper(s[i])
    ensures Lower(s) == s
  {
    assert forall i :: 0 <= i < |s| ==> Lower(s)[i] == s[i];
  }

  /** Lower-casing twice is lower-casing once. */
  lemma LowerIdempotent(s: string)
    ensures Lower(Lower(s)) == Lower(s)
  {
    LowerIdentity(Lower(s));
  }

  /** Equality up to ASCII case, as a regular expression with the `i` flag compares. */
  predicate EqualsIgnoreCase(a: string, b: string) {
    Lower(a) == Lower(b)
  }

  // ---------------------------------------------------------------------------
  // Trimming
  // ---------------------------------------------------------------------------

  /** The index of the first character at or after `i` that is not white space, or `|s|`. */
  function SkipSpaces(s: string, i: nat): (n: nat)
    requires i <= |s|
    ensures i <= n <= |s|
    ensures n < |s| ==> !IsSpace(s[n])
    decreases |s| - i
  {
    if i < |s| && IsSpace(s[i]) then SkipSpaces(s, i + 1) else i
  }

  lemma {:induction false} SkipSpacesAll(s: string, i: nat)
    requires i <= |s|
    ensures forall k :: i <= k < SkipSpaces(s, i) ==> IsSpace(s[k])
    decreases |s| - i
  {
    if i < |s| && IsSpace(s[i]) {
      SkipSpacesAll(s, i + 1);
    }
  }

  /** The index just past the last character before `j`, and not before `lo`, that is not white space; `lo` if there is none. */
  function BackSpaces(s: string, lo: nat, j: nat): (n: nat)
    requires lo <= j <= |s|
    ensures lo <= n <= j
    ensures n > lo ==> !IsSpace(s[n - 1])
    decreases j
  {
    if j > lo && IsSpace(s[j - 1]) then BackSpaces(s, lo, j - 1) else j
  }

  lemma {:induction false} BackSpacesAll(s: string, lo: nat, j: nat)
    requires lo <= j <= |s|
    ensures forall k :: BackSpaces(s, lo, j) <= k < j ==> IsSpace(s[k])
    decreases j
  {
    if j > lo && IsSpace(s[j - 1]) {
      BackSpacesAll(s, lo, j - 1);
    }
  }

  /** Where the trimmed text starts. */
  function Lead(s: string): (n: nat)
    ensures n <= |s|
  {
    SkipSpaces(s, 0)
  }

  /** Where the trimmed text ends. */
  function Tail(s: string): (n: nat)
    ensures Lead(s) <= n <= |s|
  {
    BackSpaces(s, Lead(s), |s|)
  }

  /** `s.replace(/\s+$/, '')`: drops the trailing white-space run. */
  function TrimEnd(s: string): (r: string)
    ensures |r| <= |s| && r == s[..|r|]
    ensures r == [] || !IsSpace(r[|r| - 1])
  {
    s[..BackSpaces(s, 0, |s|)]
  }

  predicate IsTrimmed(s: string) {
    s == [] || (!IsSpace(s[0]) && !IsSpace(s[|s| - 1]))
  }

  /** `String.prototype.trim`: the text between the leading and the trailing white-space runs. */
  function Trim(s: string): (r: string)
    ensures IsTrimmed(r)
  {
    s[Lead(s)..Tail(s)]
  }

  /** Everything `trim` removes is white space. */
  lemma TrimSpaces(s: string)
    ensures forall i :: 0 <= i < Lead(s) ==> IsSpace(s[i])
    ensures forall i :: Tail(s) <= i < |s| ==> IsSpace(s[i])
  {
    SkipSpacesAll(s, 0);
    BackSpacesAll(s, Lead(s), |s|);
  }

  /** The string is the trimmed string between two runs of white space. */
  lemma TrimPadding(s: string)
    ensures AllChars(s[..Lead(s)], IsSpace) && AllChars(s[Tail(s)..], IsSpace)
  {
    TrimSpaces(s);
    var head, tail := s[..Lead(s)], s[Tail(s)..];
    forall i | 0 <= i < |head| ensures IsSpace(head[i]) {
      assert head[i] == s[i];
    }
    forall i | 0 <= i < |tail| ensures IsSpace(tail[i]) {
      assert tail[i] == s[Tail(s) + i];
    }
  }

  /** A slice keeps every no-two-adjacent property of the string. */
  lemma SliceNoAdjacent(s: string, a: nat, b: nat, p: char -> bool)
    requires a <= b <= |s|
    requires NoAdjacent(s, p)
    ensures NoAdjacent(s[a..b], p)
  {
    var r := s[a..b];
    forall i | 0 <= i < |r| - 1 ensures !(p(r[i]) && p(r[i + 1])) {
      assert r[i] == s[a + i] && r[i + 1] == s[a + i + 1];
    }
  }

  /** Trimming keeps every character property of the string. */
  lemma TrimKeepsAll(s: string, ok: char -> bool)
    requires AllChars(s, ok)
    ensures AllChars(Trim(s), ok)
  {
    var r := Trim(s);
    forall i | 0 <= i < |r| ensures ok(r[i]) {
      assert r[i] == s[Lead(s) + i];
    }
  }

  /** Trimming keeps every no-two-adjacent property of the string. */
  lemma TrimNoAdjacent(s: string, p: char -> bool)
    requires NoAdjacent(s, p)
    ensures NoAdjacent(Trim(s), p)
  {
    SliceNoAdjacent(s, Lead(s), Tail(s), p);
  }

  /** A character property that holds of all white space holds of a string exactly when it holds of the trimmed string. */
  lemma AllCharsTrim(s: string, q: char -> bool)
    requires forall c :: IsSpace(c) ==> q(c)
    ensures AllChars(Trim(s), q) <==> AllChars(s, q)
  {
    var r := Trim(s);
    if AllChars(r, q) {
      TrimSpaces(s);
      forall i | 0 <= i < |s| ensures q(s[i]) {
        if Lead(s) <= i < Tail(s) {
          assert s[i] == r[i - Lead(s)];
        }
      }
    }
    if AllChars(s, q) {
      TrimKeepsAll(s, q);
    }
  }

  /** Whatever the trimmed string contains, the string contains. */
  lemma ContainsOfTrim(s: string, m: string)
    ensures Contains(Trim(s), m) ==> Contains(s, m)
  {
    ContainsSlice(s, Lead(s), Tail(s), m);
  }

  /** An occurrence of a pattern with `p`-free ends lies inside the part of `s` between `p`-padding. */
  lemma ContainsInside(s: string, a: nat, b: nat, m: string, p: char -> bool)
    requires a <= b <= |s|
    requires forall i :: 0 <= i < a ==> p(s[i])
    requires forall i :: b <= i < |s| ==> p(s[i])
    requires |m| > 0 && !p(m[0]) && !p(m[|m| - 1])
    requires Contains(s, m)
    ensures Contains(s[a..b], m)
  {
    var k := ContainsWitness(s, m);
    assert s[k] == m[0];
    assert s[k + |m| - 1] == m[|m| - 1];
    assert a <= k && k + |m| <= b;
    var t := s[a..b];
    forall i | 0 <= i < |m| ensures t[k - a + i] == m[i] {
      assert t[k - a + i] == s[k + i];
    }
    assert t[k - a..k - a + |m|] == m;
    ContainsAt(t, m, k - a);
  }

  /** A pattern that starts and ends with non-space characters occurs in a string exactly when it occurs in the trimmed string. */
  lemma ContainsTrim(s: string, m: string)
    requires |m| > 0 && !IsSpace(m[0]) && !IsSpace(m[|m| - 1])
    ensures Contains(Trim(s), m) <==> Contains(s, m)
  {
    ContainsSlice(s, Lead(s), Tail(s), m);
    if Contains(s, m) {
      TrimSpaces(s);
      ContainsInside(s, Lead(s), Tail(s), m, IsSpace);
    }
  }

  lemma TrimOfTrimmed(s: string)
    requires IsTrimmed(s)
    ensures Trim(s) == s
  {
    if s != [] {
      assert Lead(s) == 0;
      assert Tail(s) == |s|;
    }
    assert s[0..|s|] == s;
  }

  /** The trimmed string is empty exactly when the string is all white space. */
  lemma TrimEmptyIff(s: string)
    ensures Trim(s) == [] <==> AllChars(s, IsSpace)
  {
    TrimSpaces(s);
    if Trim(s) != [] {
      assert !IsSpace(s[Lead(s)]);
    }
  }

  lemma {:induction false} SkipSpacesLower(s: string, i: nat)
    requires i <= |s|
    ensures SkipSpaces(Lower(s), i) == SkipSpaces(s, i)
    decreases |s| - i
  {
    if i < |s| {
      assert Lower(s)[i] == LowerChar(s[i]);
      SkipSpacesLower(s, i + 1);
    }
  }

  lemma {:induction false} BackSpacesLower(s: string, lo: nat, j: nat)
    requires lo <= j <= |s|
    ensures BackSpaces(Lower(s), lo, j) == BackSpaces(s, lo, j)
    decreases j
  {
    if j > lo {
      assert Lower(s)[j - 1] == LowerChar(s[j - 1]);
      BackSpacesLower(s, lo, j - 1);
    }
  }

  /** Trimming and lower-casing commute. */
  lemma TrimLower(s: string)
    ensures Trim(Lower(s)) == Lower(Trim(s))
  {
    SkipSpacesLower(s, 0);
    BackSpacesLower(s, Lead(s), |s|);
    LowerSlice(s, Lead(s), Tail(s));
  }

  /** Lower-casing a slice is slicing the lower-cased text. */
  lemma LowerSlice(s: string, a: nat, b: nat)
    requires a <= b <= |s|
    ensures Lower(s)[a..b] == Lower(s[a..b])
  {
    var l, r := Lower(s)[a..b], Lower(s[a..b]);
    forall i | 0 <= i < b - a ensures l[i] == r[i] {
      assert l[i] == Lower(s)[a + i] && s[a..b][i] == s[a + i];
    }
  }

  // ---------------------------------------------------------------------------
  // Searching
  // ---------------------------------------------------------------------------

  predicate IsPrefix(m: string, s: string) {
    |m| <= |s| && s[..|m|] == m
  }

  predicate EndsWith(s: string, m: string) {
    |m| <= |s| && s[|s| - |m|..] == m
  }

  /** `s.includes(m)`. */
  predicate Contains(s: string, m: string)
    decreases |s|
  {
    IsPrefix(m, s) || (|s| > 0 && Contains(s[1..], m))
  }

  lemma ContainsAt(s: string, m: string, k: nat)
    requires k + |m| <= |s| && s[k..k + |m|] == m
    ensures Contains(s, m)
    decreases k
  {
    if k > 0 {
      assert s[1..][k - 1..k - 1 + |m|] == m;
      ContainsAt(s[1..], m, k - 1);
    }
  }

  lemma ContainsWitness(s: string, m: string) returns (k: nat)
    requires Contains(s, m)
    ensures k + |m| <= |s| && s[k..k + |m|] == m
    decreases |s|
  {
    if IsPrefix(m, s) {
      k := 0;
    } else {
      var j := ContainsWitness(s[1..], m);
      k := j + 1;
      assert s[k..k + |m|] == s[1..][j..j + |m|];
    }
  }

  /** An occurrence inside a slice is an occurrence in the whole string. */
  lemma ContainsSlice(s: string, a: nat, b: nat, m: string)
    requires a <= b <= |s|
    ensures Contains(s[a..b], m) ==> Contains(s, m)
  {
    if Contains(s[a..b], m) {
      var k := ContainsWitness(s[a..b], m);
      forall i | 0 <= i < |m| ensures s[a + k + i] == m[i] {
        assert s[a..b][k..k + |m|][i] == m[i];
      }
      assert s[a + k..a + k + |m|] == m;
      ContainsAt(s, m, a + k);
    }
  }

  lemma ContainsSuffix(s: string, a: nat, m: string)
    requires a <= |s|
    ensures Contains(s[a..], m) ==> Contains(s, m)
  {
    assert s[a..] == s[a..|s|];
    ContainsSlice(s, a, |s|, m);
  }

  /** A pattern whose first character does not occur in `a` cannot start inside `a`. */
  lemma ContainsSkipPrefix(a: string, b: string, m: string)
    requires |m| > 0 && m[0] !in a
    requires Contains(a + b, m)
    ensures Contains(b, m)
    decreases |a|
  {
    if |a| > 0 {
      assert !IsPrefix(m, a + b) by { assert (a + b)[0] == a[0]; }
      assert (a + b)[1..] == a[1..] + b;
      ContainsSkipPrefix(a[1..], b, m);
    } else {
      assert a + b == b;
    }
  }

  /** `s.indexOf(m)`, with -1 as None. */
  function IndexOf(s: string, m: string): (r: Option<nat>)
    ensures r.Some? ==> r.value + |m| <= |s| && s[r.value..r.value + |m|] == m
    decreases |s|
  {
    if IsPrefix(m, s) then Some(0)
    else if |s| == 0 then None
    else
      match IndexOf(s[1..], m)
      case None => None
      case Some(k) => Some(k + 1)
  }

  /** `indexOf` finds nothing exactly when the text does not contain the pattern. */
  lemma {:induction false} IndexOfNone(s: string, m: string)
    ensures IndexOf(s, m).None? <==> !Contains(s, m)
    decreases |s|
  {
    if !IsPrefix(m, s) && |s| > 0 {
      IndexOfNone(s[1..], m);
    }
  }

  /** `indexOf` finds the first occurrence: none ends before the one it finds. */
  lemma {:induction false} IndexOfFirst(s: string, m: string)
    requires IndexOf(s, m).Some? && |m| > 0
    ensures !Contains(s[..IndexOf(s, m).value + |m| - 1], m)
    decreases |s|
  {
    if IsPrefix(m, s) {
      ContainsLength(s[..|m| - 1], m);
    } else {
      var k := IndexOf(s[1..], m).value;
      IndexOfFirst(s[1..], m);
      var pre := s[..k + |m|];
      assert pre[1..] == s[1..][..k + |m| - 1];
      assert pre[..|m|] == s[..|m|];
    }
  }

  lemma ContainsLength(s: string, m: string)
    ensures Contains(s, m) ==> |m| <= |s|
    decreases |s|
  {
    if |s| > 0 { ContainsLength(s[1..], m); }
  }

  /** A longer prefix contains whatever a shorter one does. */
  lemma ContainsPrefixMono(s: string, i: nat, j: nat, m: string)
    requires i <= j <= |s|
    ensures Contains(s[..i], m) ==> Contains(s[..j], m)
  {
    assert s[..j][0..i] == s[..i];
    ContainsSlice(s[..j], 0, i, m);
  }

  // ---------------------------------------------------------------------------
  // Global replace of character-class runs: s.replace(/[class]+/g, rep)
  // ---------------------------------------------------------------------------

  /** Length of the longest prefix of `s` whose characters all satisfy `p`. */
  function RunLen(s: string, p: char -> bool): (n: nat)
    ensures n <= |s|
    ensures forall i :: 0 <= i < n ==> p(s[i])
    ensures n < |s| ==> !p(s[n])
  {
    if |s| > 0 && p(s[0]) then 1 + RunLen(s[1..], p) else 0
  }

  /** A run that stops at `n` has length `n`. */
  lemma {:induction false} RunLenIs(s: string, p: char -> bool, n: nat)
    requires n <= |s|
    requires forall i :: 0 <= i < n ==> p(s[i])
    requires n < |s| ==> !p(s[n])
    ensures RunLen(s, p) == n
  {
    if n > 0 {
      RunLenIs(s[1..], p, n - 1);
    }
  }

  /**
   * `s.replace(/[class]+/g, rep)`: every maximal run of characters in the
   * class is replaced by `rep`; every other character is kept.
   */
  function ReplaceRuns(s: string, p: char -> bool, rep: string): (r: string)
    ensures forall i :: 0 <= i < |r| ==> (r[i] in s && !p(r[i])) || r[i] in rep
    decreases |s|
  {
    if |s| == 0 then []
    else if p(s[0]) then rep + ReplaceRuns(s[RunLen(s, p)..], p, rep)
    else [s[0]] + ReplaceRuns(s[1..], p, rep)
  }

  /** The characters of `s` outside the class, in order. */
  function Strip(s: string, p: char -> bool): (r: string)
    ensures |r| <= |s|
    ensures forall i :: 0 <= i < |r| ==> !p(r[i])
    decreases |s|
  {
    if |s| == 0 then [] else if p(s[0]) then Strip(s[1..], p) else [s[0]] + Strip(s[1..], p)
  }

  lemma {:induction false} StripConcat(a: string, b: string, p: char -> bool)
    ensures Strip(a + b, p) == Strip(a, p) + Strip(b, p)
    decreases |a|
  {
    if |a| > 0 {
      assert (a + b)[1..] == a[1..] + b;
      StripConcat(a[1..], b, p);
    } else {
      assert a + b == b;
    }
  }

  lemma {:induction false} StripAll(s: string, p: char -> bool)
    requires AllChars(s, p)
    ensures Strip(s, p) == []
    decreases |s|
  {
    if |s| > 0 { StripAll(s[1..], p); }
  }

  /** Replacing every run by nothing deletes the class characters and keeps the rest. */
  lemma {:induction false} ReplaceRunsDelete(s: string, p: char -> bool)
    ensures ReplaceRuns(s, p, "") == Strip(s, p)
    decreases |s|
  {
    if |s| > 0 {
      if p(s[0]) {
        var n := RunLen(s, p);
        assert s == s[..n] + s[n..];
        StripConcat(s[..n], s[n..], p);
        StripAll(s[..n], p);
        ReplaceRunsDelete(s[n..], p);
      } else {
        ReplaceRunsDelete(s[1..], p);
      }
    }
  }

  /** Deleting white space gives the same string before and after trimming. */
  lemma StripEnds(s: string, a: nat, b: nat, p: char -> bool)
    requires a <= b <= |s|
    requires AllChars(s[..a], p) && AllChars(s[b..], p)
    ensures Strip(s[a..b], p) == Strip(s, p)
  {
    Cut3(s, a, b);
    StripPadded(s[..a], s[a..b], s[b..], p);
  }

  /** Class characters on both sides of a text do not survive deletion. */
  lemma StripPadded(pre: string, mid: string, post: string, p: char -> bool)
    requires AllChars(pre, p) && AllChars(post, p)
    ensures Strip(pre + mid + post, p) == Strip(mid, p)
  {
    StripAll(pre, p);
    StripAll(post, p);
    StripConcat(pre, mid, p);
    StripConcat(pre + mid, post, p);
    assert Strip(pre + mid + post, p) == [] + Strip(mid, p) + [];
  }

  lemma StripTrim(s: string)
    ensures Strip(Trim(s), IsSpace) == Strip(s, IsSpace)
  {
    TrimPadding(s);
    StripEnds(s, Lead(s), Tail(s), IsSpace);
  }

  /** Deleting every run of a class leaves only characters outside it. */
  lemma ReplaceRunsDeletes(s: string, p: char -> bool, ok: char -> bool)
    requires forall c :: !p(c) ==> ok(c)
    ensures AllChars(ReplaceRuns(s, p, ""), ok)
  {
    var r := ReplaceRuns(s, p, "");
    forall i | 0 <= i < |r| ensures ok(r[i]) {
      assert r[i] in s && !p(r[i]);
    }
  }

  lemma ReplaceRunsHead(s: string, p: char -> bool, rep: string)
    requires |s| > 0 && !p(s[0])
    ensures |ReplaceRuns(s, p, rep)| > 0 && ReplaceRuns(s, p, rep)[0] == s[0]
  {
  }

  lemma ReplaceRunsFirst(s: string, p: char -> bool, rep: string)
    requires |s| > 0 && |rep| > 0
    ensures |ReplaceRuns(s, p, rep)| > 0
    ensures ReplaceRuns(s, p, rep)[0] == if p(s[0]) then rep[0] else s[0]
  {
  }

  /** Replacing runs by one character of the class leaves no two class characters adjacent. */
  lemma {:induction false} ReplaceRunsNoAdjacent(s: string, p: char -> bool, d: char)
    requires p(d)
    ensures NoAdjacent(ReplaceRuns(s, p, [d]), p)
    decreases |s|
  {
    if |s| > 0 {
      if p(s[0]) {
        var n := RunLen(s, p);
        var t := s[n..];
        ReplaceRunsNoAdjacent(t, p, d);
        if |t| > 0 { ReplaceRunsHead(t, p, [d]); }
      } else {
        var r, rest := ReplaceRuns(s, p, [d]), ReplaceRuns(s[1..], p, [d]);
        assert r == [s[0]] + rest;
        ReplaceRunsNoAdjacent(s[1..], p, d);
        forall i | 0 <= i < |r| - 1 ensures !(p(r[i]) && p(r[i + 1])) {
          if i > 0 {
            assert r[i] == rest[i - 1] && r[i + 1] == rest[i];
          } else {
            assert r[0] == s[0];
          }
        }
      }
    }
  }

  /** A string with no class character is left alone. */
  lemma {:induction false} ReplaceRunsIdentity(s: string, p: char -> bool, rep: string)
    requires forall i :: 0 <= i < |s| ==> !p(s[i])
    ensures ReplaceRuns(s, p, rep) == s
    decreases |s|
  {
    if |s| > 0 { ReplaceRunsIdentity(s[1..], p, rep); }
  }

  /** A string whose class characters are single copies of `d` is left alone by replacing runs with `d`. */
  lemma {:induction false} ReplaceRunsFixed(s: string, p: char -> bool, d: char)
    requires forall i :: 0 <= i < |s| && p(s[i]) ==> s[i] == d
    requires NoAdjacent(s, p)
    ensures ReplaceRuns(s, p, [d]) == s
    decreases |s|
  {
    if |s| > 0 {
      if p(s[0]) {
        assert RunLen(s, p) == 1 by {
          if |s| > 1 { assert !p(s[1]); }
        }
      }
      ReplaceRunsFixed(s[1..], p, d);
    }
  }

  lemma {:induction false} ReplaceRunsPrefixBack(s: string, p: char -> bool, rep: string, m: string)
    requires |rep| > 0
    requires forall i :: 0 <= i < |m| ==> !p(m[i]) && m[i] !in rep
    requires IsPrefix(m, ReplaceRuns(s, p, rep))
    ensures IsPrefix(m, s)
    decreases |s|
  {
    if |m| > 0 && |s| > 0 {
      var r := ReplaceRuns(s, p, rep);
      ReplaceRunsFirst(s, p, rep);
      assert m[0] == r[0];
      assert r == [s[0]] + ReplaceRuns(s[1..], p, rep);
      assert IsPrefix(m[1..], ReplaceRuns(s[1..], p, rep));
      ReplaceRunsPrefixBack(s[1..], p, rep, m[1..]);
    }
  }

  /**
   * A non-empty pattern that shares no character with the class or with
   * `rep` occurs in the result only if it already occurred in the input.
   */
  lemma {:induction false} ReplaceRunsContainsBack(s: string, p: char -> bool, rep: string, m: string)
    requires |rep| > 0 && |m| > 0
    requires forall i :: 0 <= i < |m| ==> !p(m[i]) && m[i] !in rep
    requires Contains(ReplaceRuns(s, p, rep), m)
    ensures Contains(s, m)
    decreases |s|
  {
    var r := ReplaceRuns(s, p, rep);
    if IsPrefix(m, r) {
      ReplaceRunsPrefixBack(s, p, rep, m);
    } else {
      assert |s| > 0;
      if p(s[0]) {
        var n := RunLen(s, p);
        assert r == rep + ReplaceRuns(s[n..], p, rep);
        ContainsSkipPrefix(rep, ReplaceRuns(s[n..], p, rep), m);
        ReplaceRunsContainsBack(s[n..], p, rep, m);
        ContainsSuffix(s, n, m);
      } else {
        assert r[1..] == ReplaceRuns(s[1..], p, rep);
        ReplaceRunsContainsBack(s[1..], p, rep, m);
        ContainsSuffix(s, 1, m);
      }
    }
  }

  // ---------------------------------------------------------------------------
  // Replace driven by a matcher: s.replace(/pattern/g, ...) and s.replace(/pattern/, ...)
  // ---------------------------------------------------------------------------

  /** What a pattern does at the start of a suffix: no match, or a match of `len` characters replaced by `out`. */
  datatype Hit = Miss | Hit(len: nat, out: string)

  predicate Matches(m: string -> Hit, t: string) {
    m(t).Hit? && 0 < m(t).len <= |t|
  }

  /** A global replace: scanning left to right, every match is replaced and scanning resumes after it. */
  function ReplaceAll(s: string, m: string -> Hit): string
    decreases |s|
  {
    if |s| == 0 then []
    else if Matches(m, s) then m(s).out + ReplaceAll(s[m(s).len..], m)
    else [s[0]] + ReplaceAll(s[1..], m)
  }

  /** A replace without the `g` flag: only the leftmost match is replaced. */
  function ReplaceFirst(s: string, m: string -> Hit): string
    decreases |s|
  {
    if |s| == 0 then []
    else if Matches(m, s) then m(s).out + s[m(s).len..]
    else [s[0]] + ReplaceFirst(s[1..], m)
  }

  /** Both replaces keep a character property that the input and every replacement text have. */
  lemma {:induction false} ReplaceAllKeeps(s: string, m: string -> Hit, ok: char -> bool)
    requires AllChars(s, ok)
    requires forall t :: m(t).Hit? ==> AllChars(m(t).out, ok)
    ensures AllChars(ReplaceAll(s, m), ok)
    decreases |s|
  {
    if |s| > 0 {
      if Matches(m, s) {
        ReplaceAllKeeps(s[m(s).len..], m, ok);
      } else {
        ReplaceAllKeeps(s[1..], m, ok);
      }
    }
  }

  /** A global replace whose pattern matches at no position leaves the text unchanged. */
  lemma {:induction false} ReplaceAllNoMatch(s: string, m: string -> Hit)
    requires forall i :: 0 <= i < |s| ==> !Matches(m, s[i..])
    ensures ReplaceAll(s, m) == s
    decreases |s|
  {
    if |s| > 0 {
      assert s[0..] == s;
      forall i | 0 <= i < |s| - 1 ensures !Matches(m, s[1..][i..]) {
        assert s[1..][i..] == s[i + 1..];
      }
      ReplaceAllNoMatch(s[1..], m);
      assert s == [s[0]] + s[1..];
    }
  }

  lemma {:induction false} ReplaceFirstKeeps(s: string, m: string -> Hit, ok: char -> bool)
    requires AllChars(s, ok)
    requires forall t :: m(t).Hit? ==> AllChars(m(t).out, ok)
    ensures AllChars(ReplaceFirst(s, m), ok)
    decreases |s|
  {
    if |s| > 0 && !Matches(m, s) {
      ReplaceFirstKeeps(s[1..], m, ok);
    }
  }

  /** A case-insensitive literal replace keeps a character property its input and replacement have. */
  lemma ReplaceFirstLiteralKeeps(s: string, pat: string, rep: string, ok: char -> bool)
    requires AllChars(s, ok) && AllChars(rep, ok)
    ensures AllChars(ReplaceFirst(s, LiteralIgnoreCase(pat, rep)), ok)
  {
    ReplaceFirstKeeps(s, LiteralIgnoreCase(pat, rep), ok);
  }

  /** A literal pattern, case-sensitive. */
  function Literal(pat: string, rep: string): string -> Hit {
    t => if |pat| > 0 && IsPrefix(pat, t) then Hit(|pat|, rep) else Miss
  }

  /** A literal pattern under the `i` flag. */
  function LiteralIgnoreCase(pat: string, rep: string): string -> Hit {
    t => if 0 < |pat| <= |t| && EqualsIgnoreCase(t[..|pat|], pat) then Hit(|pat|, rep) else Miss
  }

  /** `s.replace(pat, rep)` with a string pattern: the first occurrence only. */
  function ReplaceString(s: string, pat: string, rep: string): (r: string)
    ensures !Contains(s, pat) ==> r == s
    ensures Contains(s, pat) ==> |r| == |s| - |pat| + |rep|
  {
    IndexOfNone(s, pat);
    match IndexOf(s, pat)
    case None => s
    case Some(i) => s[..i] + rep + s[i + |pat|..]
  }

  /** An occurrence that no earlier occurrence precedes is the one `indexOf` finds. */
  lemma IndexOfIsFirst(s: string, m: string, k: nat)
    requires |m| > 0 && k + |m| <= |s| && s[k..k + |m|] == m
    requires !Contains(s[..k + |m| - 1], m)
    ensures IndexOf(s, m) == Some(k)
  {
    ContainsAt(s, m, k);
    IndexOfNone(s, m);
    IndexOfNotBefore(s, m, k);
    IndexOfNotAfter(s, m, k);
  }

  /** `indexOf` finds no occurrence that ends before an occurrence-free prefix does. */
  lemma IndexOfNotBefore(s: string, m: string, k: nat)
    requires IndexOf(s, m).Some? && |m| > 0 && k + |m| - 1 <= |s|
    requires !Contains(s[..k + |m| - 1], m)
    ensures IndexOf(s, m).value >= k
  {
    var j := IndexOf(s, m).value;
    if j < k {
      ContainsInPrefix(s, m, j, k + |m| - 1);
    }
  }

  /** `indexOf` finds an occurrence no later than any given one. */
  lemma IndexOfNotAfter(s: string, m: string, k: nat)
    requires IndexOf(s, m).Some? && |m| > 0 && k + |m| <= |s| && s[k..k + |m|] == m
    ensures IndexOf(s, m).value <= k
  {
    IndexOfEarliest(s, m);
    if IndexOf(s, m).value > k {
      MissesAtUnfold(s, m, k);
      assert false;
    }
  }

  /** `indexOf` passes over no occurrence before the one it finds. */
  lemma {:induction false} IndexOfEarliest(s: string, m: string)
    requires IndexOf(s, m).Some?
    ensures forall j: nat :: j < IndexOf(s, m).value ==> MissesAt(s, m, j)
    decreases |s|
  {
    if !IsPrefix(m, s) {
      IndexOfEarliest(s[1..], m);
      forall j: nat | j < IndexOf(s, m).value ensures MissesAt(s, m, j) {
        if j > 0 {
          assert MissesAt(s[1..], m, j - 1);
          if j + |m| <= |s| {
            assert s[1..][j - 1..j - 1 + |m|] == s[j..j + |m|];
          }
        } else if |m| <= |s| {
          assert s[..|m|] != m;
        }
      }
    }
  }

  /** An occurrence that ends within the first `b` characters is an occurrence in that prefix. */
  lemma ContainsInPrefix(s: string, m: string, j: nat, b: nat)
    requires j + |m| <= b <= |s| && s[j..j + |m|] == m
    ensures Contains(s[..b], m)
  {
    var pre := s[..b];
    assert pre[j..j + |m|] == m;
    ContainsAt(pre, m, j);
  }

  /** No proper suffix-start of `m` begins with its first two characters, so two occurrences cannot overlap. */
  predicate NoSelfOverlap(m: string) {
    |m| >= 2 && forall d :: 0 < d < |m| ==> !RestartsAt(m, d)
  }

  /** Position `d` of `m` starts with what `m` starts with, as far as `m` reaches. */
  predicate RestartsAt(m: string, d: nat)
    requires 2 <= |m| && d < |m|
  {
    m[d] == m[0] && (d + 1 < |m| ==> m[d + 1] == m[1])
  }

  /** `m` does not occur in `s` at position `j`. */
  predicate MissesAt(s: string, m: string, j: nat) {
    j + |m| <= |s| ==> s[j..j + |m|] != m
  }

  /** A text whose only occurrence of `m` is at its end: no occurrence ends before that one does. */
  lemma {:induction false} EndingIsFirst(s: string, m: string, k: nat)
    requires NoSelfOverlap(m) && k + |m| == |s| && s[k..] == m && !Contains(s[..k], m)
    ensures !Contains(s[..k + |m| - 1], m)
  {
    var pre := s[..k + |m| - 1];
    forall j: nat ensures MissesAt(pre, m, j) {
      if j + |m| <= k {
        assert pre[j..j + |m|] == s[..k][j..j + |m|];
        if s[..k][j..j + |m|] == m { ContainsAt(s[..k], m, j); }
      } else if j + |m| <= |pre| {
        var d := k - j;
        assert !RestartsAt(m, d);
        assert pre[j..j + |m|][d] == s[k..][0] == m[0];
        if d + 1 < |m| {
          assert pre[j..j + |m|][d + 1] == s[k..][1] == m[1];
        }
      }
    }
    IndexOfNone(pre, m);
    if Contains(pre, m) {
      var j := IndexOf(pre, m).value;
      MissesAtUnfold(pre, m, j);
      assert false;
    }
  }

  lemma MissesAtUnfold(s: string, m: string, j: nat)
    ensures MissesAt(s, m, j) <==> (j + |m| <= |s| ==> s[j..j + |m|] != m)
  {
  }

  /** Replacing a pattern that the text ends with, and contains nowhere else, replaces that ending. */
  lemma ReplaceTrailing(s: string, m: string, rep: string, k: nat)
    requires NoSelfOverlap(m) && k + |m| == |s| && s[k..] == m && !Contains(s[..k], m)
    ensures ReplaceString(s, m, rep) == s[..k] + rep
  {
    EndingIsFirst(s, m, k);
    assert s[k..k + |m|] == m;
    ReplaceStringFirst(s, m, rep, k);
    assert s[k + |m|..] == [];
    assert s[..k] + rep + [] == s[..k] + rep;
  }

  /** A string replace puts the replacement where the first occurrence of the pattern was, and keeps the rest. */
  lemma ReplaceStringFirst(s: string, pat: string, rep: string, k: nat)
    requires |pat| > 0 && k + |pat| <= |s| && s[k..k + |pat|] == pat
    requires !Contains(s[..k + |pat| - 1], pat)
    ensures ReplaceString(s, pat, rep) == s[..k] + rep + s[k + |pat|..]
  {
    IndexOfIsFirst(s, pat, k);
  }

  // ---------------------------------------------------------------------------
  // Split and join
  // ---------------------------------------------------------------------------

  /** `s.split(sep)` for a non-empty string separator. */
  function SplitOn(s: string, sep: string): (r: seq<string>)
    requires |sep| > 0
    ensures |r| >= 1
    decreases |s|
  {
    match IndexOf(s, sep)
    case None => [s]
    case Some(i) => [s[..i]] + SplitOn(s[i + |sep|..], sep)
  }

  /** `parts.join(sep)`. */
  function Join(parts: seq<string>, sep: string): string
  {
    if |parts| == 0 then []
    else if |parts| == 1 then parts[0]
    else parts[0] + sep + Join(parts[1..], sep)
  }

  /** Splitting and joining again on the same separator gives back the string. */
  lemma {:induction false} JoinSplit(s: string, sep: string)
    requires |sep| > 0
    ensures Join(SplitOn(s, sep), sep) == s
    decreases |s|
  {
    match IndexOf(s, sep)
    case None =>
    case Some(i) =>
      var rest := s[i + |sep|..];
      var tail := SplitOn(rest, sep);
      JoinSplit(rest, sep);
      assert SplitOn(s, sep) == [s[..i]] + tail;
      JoinCons(s[..i], tail, sep);
      assert s[i..i + |sep|] == sep;
      Cut3(s, i, i + |sep|);
  }

  /** Joining a piece in front of a non-empty list puts the separator after it. */
  lemma JoinCons(p: string, rest: seq<string>, sep: string)
    requires |rest| >= 1
    ensures Join([p] + rest, sep) == p + sep + Join(rest, sep)
  {
    assert ([p] + rest)[1..] == rest;
  }

  /** A text is its three pieces around two cut points, in order. */
  lemma Cut3(s: string, i: nat, j: nat)
    requires i <= j <= |s|
    ensures s == s[..i] + s[i..j] + s[j..]
  {
    assert s[..j] == s[..i] + s[i..j];
    assert s == s[..j] + s[j..];
  }

  /** No piece of a split contains the separator. */
  lemma {:induction false} SplitPiecesFree(s: string, sep: string)
    requires |sep| > 0
    ensures forall k :: 0 <= k < |SplitOn(s, sep)| ==> !Contains(SplitOn(s, sep)[k], sep)
    decreases |s|
  {
    match IndexOf(s, sep)
    case None =>
      IndexOfNone(s, sep);
    case Some(i) =>
      SplitPiecesFree(s[i + |sep|..], sep);
      IndexOfFirst(s, sep);
      ContainsPrefixMono(s, i, i + |sep| - 1, sep);
  }

  /** `s.split(/[class]+/)`: the pieces between maximal runs of the class. */
  function SplitRuns(s: string, p: char -> bool): (r: seq<string>)
    ensures |r| >= 1
    decreases |s|
  {
    var n := RunLen(s, (c: char) => !p(c));
    if n == |s| then [s]
    else
      var k := n + RunLen(s[n..], p);
      assert k > n;
      [s[..n]] + SplitRuns(s[k..], p)
  }
}
