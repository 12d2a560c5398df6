/**
 * The small regular expressions the extension tests text against, as token
 * sequences. A token is a literal character (optionally case-insensitive),
 * a character from a set, an optional character, or a run of white space or
 * digits with a minimum length. Runs are matched greedily; in every pattern
 * written with these tokens a run is followed by a token its class cannot
 * match, so greedy matching gives the same answer as a backtracking regular
 * expression engine.
 */
module Pattern {
  import opened Optional
  import opened JsText

  datatype Tok =
    | Ch(c: char)           // one literal character
    | ChI(c: char)          // one literal character under the `i` flag
    | OneOf(cs: string)     // a character class such as [pv]
    | Opt(c: char)          // c?
    | Spaces(min: nat)      // \s* (min 0) or \s+ (min 1)
    | Digits(min: nat)      // \d+ (min 1)

  /** The number of characters `toks` matches at the start of `t`, if it matches there. */
  function MatchLen(t: string, toks: seq<Tok>): (r: Option<nat>)
    ensures r.Some? ==> r.value <= |t|
    decreases |toks|, 0
  {
    if toks == [] then Some(0)
    else
      match toks[0]
      case Ch(c) => if |t| > 0 && t[0] == c then After(1, t, toks[1..]) else None
      case ChI(c) => if |t| > 0 && LowerChar(t[0]) == LowerChar(c) then After(1, t, toks[1..]) else None
      case OneOf(cs) => if |t| > 0 && t[0] in cs then After(1, t, toks[1..]) else None
      case Opt(c) =>
        if |t| > 0 && t[0] == c && After(1, t, toks[1..]).Some? then After(1, t, toks[1..])
        else MatchLen(t, toks[1..])
      case Spaces(min) =>
        var n := RunLen(t, IsSpace);
        if n >= min then After(n, t, toks[1..]) else None
      case Digits(min) =>
        var n := RunLen(t, IsDigit);
        if n >= min then After(n, t, toks[1..]) else None
  }

  /** Match the remaining tokens after the first `n` characters, counting those `n`. */
  function After(n: nat, t: string, toks: seq<Tok>): (r: Option<nat>)
    requires n <= |t|
    ensures r.Some? ==> n <= r.value <= |t|
    decreases |toks|, 1
  {
    match MatchLen(t[n..], toks)
    case None => None
    case Some(k) => Some(n + k)
  }

  /** `/^pattern/.test(s)`. */
  predicate MatchesAtStart(s: string, toks: seq<Tok>) {
    MatchLen(s, toks).Some?
  }

  /** `/pattern/.test(s)`: the pattern matches somewhere in `s`. */
  predicate Occurs(s: string, toks: seq<Tok>)
    decreases |s|
  {
    MatchesAtStart(s, toks) || (|s| > 0 && Occurs(s[1..], toks))
  }

  /** The tokens of a literal string. */
  function Lit(s: string): (toks: seq<Tok>)
    ensures |toks| == |s|
  {
    seq(|s|, i requires 0 <= i < |s| => Ch(s[i]))
  }

  /** A literal at the start of the text matches its own length, then the rest of the pattern goes on after it. */
  lemma {:induction false} MatchLit(t: string, s: string, rest: seq<Tok>)
    requires IsPrefix(s, t)
    ensures MatchLen(t, Lit(s) + rest) == After(|s|, t, rest)
    decreases |s|
  {
    var toks := Lit(s) + rest;
    if s == [] {
      assert toks == rest;
      assert t[0..] == t;
    } else {
      assert toks[0] == Ch(s[0]);
      assert toks[1..] == Lit(s[1..]) + rest;
      assert t[1..][..|s| - 1] == s[1..];
      MatchLit(t[1..], s[1..], rest);
      assert t[1..][|s| - 1..] == t[|s|..];
    }
  }

  /** The tokens of a literal string under the `i` flag. */
  function LitI(s: string): (toks: seq<Tok>)
    ensures |toks| == |s|
  {
    seq(|s|, i requires 0 <= i < |s| => ChI(s[i]))
  }

  /** The pattern as a matcher for a replace: every match becomes `rep`. */
  function Replacing(toks: seq<Tok>, rep: string): string -> Hit {
    t => match MatchLen(t, toks)
         case Some(n) => Hit(n, rep)
         case None => Miss
  }
}
