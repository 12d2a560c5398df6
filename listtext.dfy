/**
 * The text comparisons of the PDF cleanup pass: the key a text item is
 * deduplicated by, and the items of a bulleted or numbered list written out
 * inside one text item.
 */
module ListText {
  import opened Optional
  import opened JsText
  import opened Pattern

  // ---------------------------------------------------------------------------
  // normalizeContent
  // ---------------------------------------------------------------------------

  /** The global replace of `[•*]` and the `\s*` after it by nothing: a bullet mark and the white space after it. */
  function BulletMark(t: string): Hit {
    if |t| > 0 && (t[0] == '•' || t[0] == '*') then Hit(1 + RunLen(t[1..], IsSpace), "") else Miss
  }

  /** `/^\d+\.\s+/`. */
  const NumberPrefix: seq<Tok> := [Digits(1), Ch('.'), Spaces(1)]

  /** `/^Newton['']s\s+/`: the character class holds one apostrophe written twice. */
  const NewtonPrefix: seq<Tok> := Lit("Newton's") + [Spaces(1)]

  /** A replace anchored at the start: drop the prefix the tokens match, if they match. */
  function StripPrefix(s: string, toks: seq<Tok>): (r: string)
    ensures |r| <= |s| && r == s[|s| - |r|..]
  {
    match MatchLen(s, toks)
    case Some(n) => s[n..]
    case None => s
  }

  /** `s.replace(/:\s*$/, '')`: drop a final colon and the white space after it. */
  function DropTrailingColon(s: string): (r: string)
    ensures |r| <= |s| && r == s[..|r|]
    ensures r != s <==> EndsWith(TrimEnd(s), ":")
  {
    var t := TrimEnd(s);
    if |t| > 0 && t[|t| - 1] == ':' then t[..|t| - 1] else s
  }

  predicate IsKeyChar(c: char) {
    c != '•' && c != '*' && !IsUpper(c) && (IsSpace(c) ==> c == ' ')
  }

  predicate SpaceIsBlank(c: char) { IsSpace(c) ==> c == ' ' }

  predicate NotBulletChar(c: char) { c != '•' && c != '*' }

  /**
   * The key a text item is deduplicated by: trimmed, white-space runs made one
   * space, bullet marks removed, a leading list number and a leading
   * "Newton's" removed, a final colon removed, lower-cased.
   */
  function NormalizeContent(text: string): (key: string)
    ensures text == [] ==> key == []
    ensures AllChars(key, IsKeyChar)
  {
    if text == [] then []
    else
      UnloweredChars(text);
      LowerKeyChars(Unlowered(text));
      Lower(Unlowered(text))
  }

  /** The trimmed text with white-space runs made one space and bullet marks removed. */
  function Unbulleted(text: string): string {
    ReplaceAll(ReplaceRuns(Trim(text), IsSpace, " "), BulletMark)
  }

  /** The key before lower-casing. */
  function Unlowered(text: string): string {
    var unnumbered := StripPrefix(Unbulleted(text), NumberPrefix);
    DropTrailingColon(StripPrefix(unnumbered, NewtonPrefix))
  }

  /** The key before lower-casing has no bullet mark and no white space but the plain space. */
  lemma UnloweredChars(text: string)
    ensures AllChars(Unlowered(text), SpaceIsBlank) && AllChars(Unlowered(text), NotBulletChar)
  {
    NormalizeSteps(text, ReplaceRuns(Trim(text), IsSpace, " "), Unbulleted(text));
    UnloweredKeeps(text, SpaceIsBlank);
    UnloweredKeeps(text, NotBulletChar);
  }

  /** The key before lower-casing is a slice of the unbulleted text, so it keeps its character properties. */
  lemma UnloweredKeeps(text: string, ok: char -> bool)
    requires AllChars(Unbulleted(text), ok)
    ensures AllChars(Unlowered(text), ok)
  {
    var u := Unbulleted(text);
    var plain := StripPrefix(StripPrefix(u, NumberPrefix), NewtonPrefix);
    var r := Unlowered(text);
    var a := |u| - |plain|;
    assert r == u[a..a + |r|];
    SliceAll(u, a, r, ok);
  }

  lemma NormalizeSteps(text: string, spaced: string, unbulleted: string)
    requires spaced == ReplaceRuns(Trim(text), IsSpace, " ")
    requires unbulleted == ReplaceAll(spaced, BulletMark)
    ensures AllChars(unbulleted, SpaceIsBlank) && AllChars(unbulleted, NotBulletChar)
  {
    assert AllChars(spaced, SpaceIsBlank);
    ReplaceAllKeeps(spaced, BulletMark, SpaceIsBlank);
    BulletMarksRemoved(spaced);
  }

  /** A slice keeps every character property of the string. */
  lemma SliceAll(u: string, a: nat, r: string, ok: char -> bool)
    requires AllChars(u, ok)
    requires a + |r| <= |u| && r == u[a..a + |r|]
    ensures AllChars(r, ok)
  {
    forall i | 0 <= i < |r| ensures ok(r[i]) {
      assert r[i] == u[a + i];
    }
  }

  /** Lower-casing text without bullet marks and without white space but the plain space gives key characters only. */
  lemma LowerKeyChars(r: string)
    requires AllChars(r, SpaceIsBlank) && AllChars(r, NotBulletChar)
    ensures AllChars(Lower(r), IsKeyChar)
  {
    forall i | 0 <= i < |r| ensures IsKeyChar(Lower(r)[i]) {
      assert SpaceIsBlank(r[i]) && NotBulletChar(r[i]);
    }
  }

  /** No bullet mark survives the global bullet replace. */
  lemma {:induction false} BulletMarksRemoved(s: string)
    ensures AllChars(ReplaceAll(s, BulletMark), NotBulletChar)
    decreases |s|
  {
    if |s| > 0 {
      if Matches(BulletMark, s) {
        BulletMarksRemoved(s[BulletMark(s).len..]);
      } else {
        BulletMarksRemoved(s[1..]);
      }
    }
  }

  // ---------------------------------------------------------------------------
  // extractBulletPoints / extractNumberedItems
  // ---------------------------------------------------------------------------

  /**
   * The two list shapes: items starting with `•` or `*`, and items starting
   * with a number and a dot. The same mark starts an item and, after a line
   * break, ends the item before it.
   */
  datatype ListKind = Bulleted | Numbered

  /** The length of the list mark at position `q`, if there is one: `[•*]` or `\d+\.`. */
  function MarkLen(t: string, q: nat, kind: ListKind): (r: Option<nat>)
    requires q <= |t|
    ensures r.Some? ==> 0 < r.value && q + r.value <= |t|
  {
    match kind
    case Bulleted => if q < |t| && (t[q] == '•' || t[q] == '*') then Some(1) else None
    case Numbered =>
      var d := RunLen(t[q..], IsDigit);
      if d >= 1 && q + d < |t| && t[q + d] == '.' then Some(d + 1) else None
  }

  /** The first line terminator at or after `g`, or the end of the text. */
  function LineEnd(t: string, g: nat): (e: nat)
    requires g <= |t|
    ensures g <= e <= |t|
    ensures forall i :: g <= i < e ==> !IsLineTerminator(t[i])
    ensures e < |t| ==> IsLineTerminator(t[e])
  {
    g + RunLen(t[g..], c => !IsLineTerminator(c))
  }

  /** The look-ahead `(?=\n<mark>|\n\n|$)` at position `e`. */
  predicate ItemEnds(t: string, e: nat, kind: ListKind)
    requires e <= |t|
  {
    e == |t| || (t[e] == '\n' && e + 1 < |t| && (MarkLen(t, e + 1, kind).Some? || t[e + 1] == '\n'))
  }

  /**
   * `\s+(.+?)` followed by the look-ahead, where the white-space run after the
   * mark starts at `start` and `\s+` has given back all but `w` characters:
   * the lazy group can only stop at the end of its line, so it is accepted
   * exactly when that line end satisfies the look-ahead. Returns the group's
   * bounds.
   */
  function TryWidth(t: string, start: nat, w: nat, kind: ListKind): (r: Option<(nat, nat)>)
    requires start + w <= |t|
    ensures r.Some? ==> start < r.value.0 < r.value.1 <= |t|
    ensures r.Some? ==> forall i :: r.value.0 <= i < r.value.1 ==> !IsLineTerminator(t[i])
    decreases w
  {
    if w == 0 then None
    else
      var g := start + w;
      if g < |t| && !IsLineTerminator(t[g]) && ItemEnds(t, LineEnd(t, g), kind) then Some((g, LineEnd(t, g)))
      else TryWidth(t, start, w - 1, kind)
  }

  /** A list item whose mark starts at `q`: the bounds of its text, if the pattern matches there. */
  function ItemAt(t: string, q: nat, kind: ListKind): (r: Option<(nat, nat)>)
    requires q <= |t|
    ensures r.Some? ==> q < r.value.0 < r.value.1 <= |t|
    ensures r.Some? ==> forall i :: r.value.0 <= i < r.value.1 ==> !IsLineTerminator(t[i])
  {
    match MarkLen(t, q, kind)
    case None => None
    case Some(m) => TryWidth(t, q + m, RunLen(t[q + m..], IsSpace), kind)
  }

  /** `(?:^|\n)<mark>\s+(.+?)(?=...)` tried at position `p`: the start of the text or a line break. */
  function MatchAt(t: string, p: nat, kind: ListKind): (r: Option<(nat, nat)>)
    requires p < |t|
    ensures r.Some? ==> p < r.value.0 < r.value.1 <= |t|
    ensures r.Some? ==> forall i :: r.value.0 <= i < r.value.1 ==> !IsLineTerminator(t[i])
  {
    var atStart := if p == 0 then ItemAt(t, 0, kind) else None;
    if atStart.Some? then atStart
    else if t[p] == '\n' then ItemAt(t, p + 1, kind)
    else None
  }

  /** The global `matchAll` from position `p`: each match's trimmed group, scanning on from the match's end. */
  function ItemsFrom(t: string, p: nat, kind: ListKind): (items: seq<string>)
    requires p <= |t|
    decreases |t| - p
  {
    if p == |t| then []
    else match MatchAt(t, p, kind)
      case Some((g, e)) => [Trim(t[g..e])] + ItemsFrom(t, e, kind)
      case None => ItemsFrom(t, p + 1, kind)
  }

  /** The items of the list written out in `text`. */
  function ExtractItems(text: string, kind: ListKind): seq<string> {
    if text == [] then [] else ItemsFrom(text, 0, kind)
  }

  /** Text without a line terminator: `.` matches every one of its characters. */
  predicate OnOneLine(s: string) {
    forall i :: 0 <= i < |s| ==> !IsLineTerminator(s[i])
  }

  /** Every extracted item is trimmed text of one line that occurs in the text. */
  lemma {:induction false} ItemsFromOccur(t: string, p: nat, kind: ListKind)
    requires p <= |t|
    ensures forall k :: 0 <= k < |ItemsFrom(t, p, kind)| ==>
      IsTrimmed(ItemsFrom(t, p, kind)[k]) && Contains(t, ItemsFrom(t, p, kind)[k])
      && OnOneLine(ItemsFrom(t, p, kind)[k])
    decreases |t| - p
  {
    if p < |t| {
      match MatchAt(t, p, kind)
      case Some((g, e)) =>
        ItemsFromOccur(t, e, kind);
        PieceOccurs(t, g, e);
        var items, rest := ItemsFrom(t, p, kind), ItemsFrom(t, e, kind);
        assert items == [Trim(t[g..e])] + rest;
        forall k | 0 < k < |items| ensures items[k] == rest[k - 1] { }
      case None =>
        ItemsFromOccur(t, p + 1, kind);
    }
  }

  lemma PieceOccurs(t: string, g: nat, e: nat)
    requires g <= e <= |t|
    requires forall i :: g <= i < e ==> !IsLineTerminator(t[i])
    ensures IsTrimmed(Trim(t[g..e])) && Contains(t, Trim(t[g..e])) && OnOneLine(Trim(t[g..e]))
  {
    var piece := Trim(t[g..e]);
    assert OnOneLine(t[g..e]);
    ContainsAt(piece, piece, 0);
    ContainsOfTrim(t[g..e], piece);
    ContainsSlice(t, g, e, piece);
  }

  /** Every bullet or numbered item extracted from the text is trimmed text of one line that occurs in it. */
  lemma ExtractedItemsOccur(text: string, kind: ListKind)
    ensures forall k :: 0 <= k < |ExtractItems(text, kind)| ==>
      IsTrimmed(ExtractItems(text, kind)[k]) && Contains(text, ExtractItems(text, kind)[k])
      && OnOneLine(ExtractItems(text, kind)[k])
  {
    if text != [] { ItemsFromOccur(text, 0, kind); }
  }

  // ---------------------------------------------------------------------------
  // containsBulletedList / containsNumberedList
  // ---------------------------------------------------------------------------

  /** The quick test before extracting: a bullet character, or a number followed by a dot. */
  predicate HasListMarks(text: string, kind: ListKind) {
    match kind
    case Bulleted => Contains(text, "•") || Contains(text, "*")
    case Numbered => Occurs(text, [Digits(1), Ch('.')])
  }

  /**
   * Whether `text` writes out a list that covers every one of `items`: the
   * key of each item occurs inside the key of some extracted list item.
   */
  predicate ContainsList(text: string, items: seq<string>, kind: ListKind) {
    text != [] && |items| > 0 && HasListMarks(text, kind)
    && var points := ExtractItems(text, kind);
    forall k :: 0 <= k < |items| ==>
      exists j :: 0 <= j < |points| && Contains(NormalizeContent(points[j]), NormalizeContent(items[k]))
  }
}
