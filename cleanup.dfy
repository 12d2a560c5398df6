/**
 * The cleanup the popup applies to extracted messages before drawing the
 * PDF: messages without items are dropped; in each remaining message,
 * equation-shaped text becomes an equation item, then a first pass drops
 * toolbar captions and duplicates (by three per-message sets of keys) and a
 * second pass drops captions after code and text that repeats a list or a
 * heading given elsewhere. Tables are never dropped.
 *
 * Each step is a specification function; the methods do the same work the
 * way the source does (an in-place rewrite of the item array, a loop with
 * mutable sets and a running previous item, a filter loop) and are proved
 * equal to the functions. The lemmas at the end state what the cleanup
 * guarantees.
 */
module Cleanup {
  import opened Optional
  import opened JsText
  import opened Pattern
  import opened EquationText
  import opened PageText
  import opened Headings
  import opened ListText

  // ---------------------------------------------------------------------------
  // Messages and items
  // ---------------------------------------------------------------------------

  /** A piece of a message, with the vertical position it was found at, if any. */
  datatype Item =
    | Text(content: string, y: Option<int>)
    | Equation(content: string, y: Option<int>)
    | Code(content: string, language: string, y: Option<int>)
    | Table(headers: seq<string>, rows: seq<seq<string>>, y: Option<int>)
    | Image(content: string, y: Option<int>)

  /** A message; `items` is None when the extracted object has no item array. */
  datatype Message = Message(speaker: string, timestamp: string, items: Option<seq<Item>>)

  predicate HasItems(m: Message) {
    m.items.Some? && |m.items.value| > 0
  }

  // ---------------------------------------------------------------------------
  // Reclassification (in place)
  // ---------------------------------------------------------------------------

  /** A text item whose trimmed content looks like an equation becomes an equation item at the same position. */
  function Reclassify(it: Item): (r: Item)
    ensures r.y == it.y
    ensures !it.Text? ==> r == it
    ensures it.Text? && r != it ==> r == Equation(Trim(it.content), it.y) && IsEquationLike(Trim(it.content))
  {
    if it.Text? && IsEquationLike(Trim(it.content)) then Equation(Trim(it.content), it.y) else it
  }

  function ReclassifyAll(items: seq<Item>): (r: seq<Item>)
    ensures |r| == |items|
    ensures forall i :: 0 <= i < |items| ==> r[i] == Reclassify(items[i])
  {
    seq(|items|, i requires 0 <= i < |items| => Reclassify(items[i]))
  }

  /** Rewrites the equation-shaped text items of the array in place. */
  method ReclassifyInPlace(items: array<Item>)
    modifies items
    ensures items[..] == ReclassifyAll(old(items[..]))
  {
    ghost var original := items[..];
    var i := 0;
    while i < items.Length
      invariant 0 <= i <= items.Length
      invariant items[..i] == ReclassifyAll(original)[..i]
      invariant forall j :: i <= j < items.Length ==> items[j] == original[j]
    {
      var it := items[i];
      if it.Text? {
        var content := Trim(it.content);
        if IsEquationLike(content) {
          items[i] := Equation(content, it.y);
        }
      }
      assert items[i] == Reclassify(it);
      assert items[..i + 1] == items[..i] + [items[i]];
      i := i + 1;
    }
    ghost var r := ReclassifyAll(original);
    assert r[..|r|] == r;
    assert items[..] == items[..items.Length];
  }

  // ---------------------------------------------------------------------------
  // Keys
  // ---------------------------------------------------------------------------

  /** The key of a text item: its content trimmed, then normalized. */
  function TextKey(content: string): string {
    NormalizeContent(Trim(content))
  }

  /** The key of a code item: the first 50 characters of its trimmed, lower-cased content. */
  function CodeKey(content: string): (key: string)
    ensures |key| <= 50
  {
    var k := Lower(Trim(content));
    if |k| <= 50 then k else k[..50]
  }

  /** Two items the first pass treats as duplicates of each other. */
  predicate SameKey(a: Item, b: Item) {
    (a.Text? && b.Text? && TextKey(a.content) == TextKey(b.content))
    || (a.Equation? && b.Equation? && NormalizeEquation(a.content) == NormalizeEquation(b.content))
    || (a.Code? && b.Code? && CodeKey(a.content) == CodeKey(b.content))
  }

  /** No two items of `s` are the same under `same`. */
  predicate DistinctBy(s: seq<Item>, same: (Item, Item) -> bool) {
    forall i, j :: 0 <= i < j < |s| ==> !same(s[i], s[j])
  }

  /** No two items share a key. */
  predicate DistinctKeys(s: seq<Item>) {
    DistinctBy(s, SameKey)
  }

  // ---------------------------------------------------------------------------
  // First pass
  // ---------------------------------------------------------------------------

  /** The words the second line of a caption is made of. */
  const AfterCodeWords: set<string> := {"java", "copy", "edit", "javascript", "python", "typescript"}

  /** The words of the trimmed, lower-cased content, split at white-space runs. */
  function Words(content: string): seq<string> {
    SplitRuns(Lower(Trim(content)), IsSpace)
  }

  /** At most three words, all of them caption words (the first pass's test). */
  predicate AllCaptionWords(content: string) {
    var w := Words(content);
    |w| <= 3 && forall k :: 0 <= k < |w| ==> w[k] in AfterCodeWords
  }

  /** At most three words, one of them a caption word (the second pass's test). */
  predicate SomeCaptionWord(content: string) {
    var w := Words(content);
    |w| <= 3 && exists k :: 0 <= k < |w| && w[k] in AfterCodeWords
  }

  /** `shouldSkipAsUIControl`: a caption, or caption words right after a code item. */
  predicate ShouldSkipAsUIControl(it: Item, prev: Option<Item>) {
    (it.Text? && IsUIControlText(it.content))
    || (it.Text? && prev.Some? && prev.value.Code? && AllCaptionWords(it.content))
  }

  predicate StartsBullet(t: string) { IsPrefix("•", t) || IsPrefix("*", t) }

  /** `/^\d+\.\s/`. */
  predicate StartsNumbered(t: string) { MatchesAtStart(t, [Digits(1), Ch('.'), Spaces(1)]) }

  /** What the first pass has built so far. */
  datatype PassState = PassState(
    kept: seq<Item>,
    seenText: set<string>,
    seenEquations: set<string>,
    seenCode: set<string>,
    bullets: seq<string>,
    numbered: seq<string>,
    prev: Option<Item>)

  const Start := PassState([], {}, {}, {}, [], [], None)

  /** Whether the item is dropped at once for having no content (tables need none). */
  predicate Empty(it: Item) {
    !it.Table? && it.content == []
  }

  /** One iteration of the first pass. `prev` moves only when the item is kept. */
  function Step(st: PassState, it: Item): PassState {
    if Empty(it) then st
    else match it
      case Text(_, _) => TextStep(st, it)
      case Equation(c, _) =>
        var key := NormalizeEquation(c);
        if key in st.seenEquations then st
        else st.(kept := st.kept + [it], seenEquations := st.seenEquations + {key}, prev := Some(it))
      case Code(c, _, _) =>
        var key := CodeKey(c);
        if key in st.seenCode then st
        else st.(kept := st.kept + [it], seenCode := st.seenCode + {key}, prev := Some(it))
      case Table(_, _, _) => st.(kept := st.kept + [it], prev := Some(it))
      case Image(_, _) => st.(kept := st.kept + [it], prev := Some(it))
  }

  /** The first pass on a non-empty text item: captions and repeated keys are skipped. */
  function TextStep(st: PassState, it: Item): PassState
    requires it.Text?
  {
    var t := Trim(it.content);
    if IsUIControlText(t) then st
    else if st.prev.Some? && st.prev.value.Code? && ShouldSkipAsUIControl(it, st.prev) then st
    else
      var key := NormalizeContent(t);
      if key in st.seenText then st
      else st.(kept := st.kept + [it], seenText := st.seenText + {key},
               bullets := st.bullets + (if StartsBullet(t) then [t] else []),
               numbered := st.numbered + (if StartsNumbered(t) then [t] else []),
               prev := Some(it))
  }

  function FirstPass(items: seq<Item>): PassState
    decreases |items|
  {
    if items == [] then Start else Step(FirstPass(items[..|items| - 1]), items[|items| - 1])
  }

  /** The first pass as the source writes it: a `forEach` over the items, threading the pass's state. */
  method FirstPassLoop(items: seq<Item>) returns (st: PassState)
    ensures st == FirstPass(items)
  {
    st := Start;
    var i := 0;
    while i < |items|
      invariant 0 <= i <= |items|
      invariant st == FirstPass(items[..i])
    {
      assert items[..i + 1][..i] == items[..i];
      st := VisitItem(st, items[i]);
      i := i + 1;
    }
    assert items[..i] == items;
  }

  /** The `forEach` callback: each `return` leaves the state as it was. */
  method VisitItem(st: PassState, it: Item) returns (next: PassState)
    ensures next == Step(st, it)
  {
    next := st;
    if Empty(it) {
      return;
    }
    match it {
      case Text(_, _) =>
        next := VisitText(st, it);
      case Equation(c, _) =>
        var key := NormalizeEquation(c);
        if key in st.seenEquations {
          return;
        }
        next := st.(kept := st.kept + [it], seenEquations := st.seenEquations + {key}, prev := Some(it));
      case Code(c, _, _) =>
        var key := CodeKey(c);
        if key in st.seenCode {
          return;
        }
        next := st.(kept := st.kept + [it], seenCode := st.seenCode + {key}, prev := Some(it));
      case Table(_, _, _) =>
        next := st.(kept := st.kept + [it], prev := Some(it));
      case Image(_, _) =>
        next := st.(kept := st.kept + [it], prev := Some(it));
    }
  }

  /** The callback's branch for a non-empty text item. */
  method VisitText(st: PassState, it: Item) returns (next: PassState)
    requires it.Text?
    ensures next == TextStep(st, it)
  {
    next := st;
    var t := Trim(it.content);
    if IsUIControlText(t) {
      return;
    }
    if st.prev.Some? && st.prev.value.Code? && ShouldSkipAsUIControl(it, st.prev) {
      return;
    }
    var key := NormalizeContent(t);
    if key in st.seenText {
      return;
    }
    next := st.(kept := st.kept + [it], seenText := st.seenText + {key},
                bullets := st.bullets + (if StartsBullet(t) then [t] else []),
                numbered := st.numbered + (if StartsNumbered(t) then [t] else []),
                prev := Some(it));
  }

  // ---------------------------------------------------------------------------
  // Second pass
  // ---------------------------------------------------------------------------

  /** `list.filter(x => x !== item)`. */
  function Without(list: seq<string>, x: string): (r: seq<string>)
    ensures forall k :: 0 <= k < |r| ==> r[k] != x && r[k] in list
    decreases |list|
  {
    if list == [] then []
    else (if list[0] == x then [] else [list[0]]) + Without(list[1..], x)
  }

  /**
   * A later text item (a numbered one, when `numberedOnly`) contains the
   * text of item `i` without its final colon.
   */
  predicate RepeatedLater(p: seq<Item>, i: nat, numberedOnly: bool)
    requires i < |p| && p[i].Text?
  {
    exists j :: i < j < |p| && p[j].Text? && (!numberedOnly || StartsNumbered(p[j].content))
      && Contains(p[j].content, DropTrailingColon(p[i].content))
  }

  /** A caption: a toolbar word, or caption words right after a code item. */
  predicate DropsAsCaption(p: seq<Item>, i: nat)
    requires i < |p| && p[i].Text?
  {
    IsUIControlText(p[i].content) || (i > 0 && p[i - 1].Code? && SomeCaptionWord(p[i].content))
  }

  /**
   * Text that writes out a list covering the other list items of that kind,
   * or a heading repeated by a later text item (a numbered one for the
   * numbered kind).
   */
  predicate RepeatsList(p: seq<Item>, i: nat, list: seq<string>, kind: ListKind)
    requires i < |p| && p[i].Text?
  {
    |list| > 0
    && (ContainsList(p[i].content, Without(list, p[i].content), kind)
        || (IsHeaderText(p[i].content) && RepeatedLater(p, i, kind == Numbered)))
  }

  /** Whether the second pass keeps item `i` of the first pass's output: only text is ever dropped. */
  predicate KeepSecond(p: seq<Item>, i: nat, bullets: seq<string>, numbered: seq<string>)
    requires i < |p|
  {
    !p[i].Text?
    || !(DropsAsCaption(p, i) || RepeatsList(p, i, bullets, Bulleted) || RepeatsList(p, i, numbered, Numbered))
  }

  /** The second pass's callback: given an index, whether the item there is kept. */
  function KeepAt(p: seq<Item>, bullets: seq<string>, numbered: seq<string>): nat -> bool {
    (i: nat) => i < |p| && KeepSecond(p, i, bullets, numbered)
  }

  /** The verdicts of a callback on the first `n` indices. */
  function Flags(n: nat, keepAt: nat -> bool): (keep: seq<bool>)
    ensures |keep| == n
    ensures forall i :: 0 <= i < n ==> keep[i] == keepAt(i)
  {
    seq(n, i requires 0 <= i => keepAt(i))
  }

  /** The second pass's verdict on each item. */
  function SecondPassFlags(p: seq<Item>, bullets: seq<string>, numbered: seq<string>): (keep: seq<bool>)
    ensures |keep| == |p|
  {
    Flags(|p|, KeepAt(p, bullets, numbered))
  }

  /** The second pass keeps every table. */
  lemma SecondPassKeepsTables(p: seq<Item>, bullets: seq<string>, numbered: seq<string>)
    ensures forall i :: 0 <= i < |p| && p[i].Table? ==> SecondPassFlags(p, bullets, numbered)[i]
  {
  }

  /** The second pass drops every toolbar caption. */
  lemma SecondPassDropsCaptions(p: seq<Item>, bullets: seq<string>, numbered: seq<string>)
    ensures forall i :: 0 <= i < |p| && p[i].Text? && IsUIControlText(p[i].content) ==>
      !SecondPassFlags(p, bullets, numbered)[i]
  {
  }

  /** The items among the first `n` whose flag is set, in order. */
  function Select(p: seq<Item>, keep: seq<bool>, n: nat): seq<Item>
    requires n <= |p| == |keep|
  {
    if n == 0 then []
    else Select(p, keep, n - 1) + (if keep[n - 1] then [p[n - 1]] else [])
  }

  lemma SelectNext(p: seq<Item>, keep: seq<bool>, i: nat)
    requires i < |p| == |keep|
    ensures Select(p, keep, i + 1) == Select(p, keep, i) + (if keep[i] then [p[i]] else [])
  {
  }

  function SecondPass(p: seq<Item>, bullets: seq<string>, numbered: seq<string>): seq<Item> {
    Select(p, SecondPassFlags(p, bullets, numbered), |p|)
  }

  /** `Array.prototype.filter` with a callback that takes the index: the items it accepts, in order. */
  method Filter(p: seq<Item>, keepAt: nat -> bool) returns (r: seq<Item>)
    ensures r == Select(p, Flags(|p|, keepAt), |p|)
  {
    ghost var keep := Flags(|p|, keepAt);
    r := [];
    var i := 0;
    while i < |p|
      invariant 0 <= i <= |p|
      invariant r == Select(p, keep, i)
    {
      SelectNext(p, keep, i);
      if keepAt(i) {
        r := r + [p[i]];
      }
      i := i + 1;
    }
  }

  /** The second pass as the source writes it: a filter over the items with their indices. */
  method SecondPassLoop(p: seq<Item>, bullets: seq<string>, numbered: seq<string>) returns (r: seq<Item>)
    ensures r == SecondPass(p, bullets, numbered)
  {
    r := Filter(p, KeepAt(p, bullets, numbered));
  }

  // ---------------------------------------------------------------------------
  // processMessagesForPDF
  // ---------------------------------------------------------------------------

  /** The items of one message after both passes. */
  function CleanItems(items: seq<Item>): seq<Item> {
    var st := FirstPass(ReclassifyAll(items));
    SecondPass(st.kept, st.bullets, st.numbered)
  }

  /** The messages with items, each with `clean` applied to its items and every other field as it was. */
  function MapItems(msgs: seq<Message>, clean: seq<Item> -> seq<Item>): seq<Message>
    decreases |msgs|
  {
    if msgs == [] then []
    else
      (if HasItems(msgs[0]) then [msgs[0].(items := Some(clean(msgs[0].items.value)))] else [])
      + MapItems(msgs[1..], clean)
  }

  /** The messages with items, each with its items cleaned and every other field as it was. */
  function ProcessMessages(msgs: seq<Message>): seq<Message> {
    MapItems(msgs, CleanItems)
  }

  method CleanMessageItems(items: seq<Item>) returns (r: seq<Item>)
    ensures r == CleanItems(items)
  {
    var a := new Item[|items|](i requires 0 <= i < |items| => items[i]);
    assert a[..] == items;
    ReclassifyInPlace(a);
    var st := FirstPassLoop(a[..]);
    r := SecondPassLoop(st.kept, st.bullets, st.numbered);
  }

  method ProcessMessagesForPDF(msgs: seq<Message>) returns (out: seq<Message>)
    ensures out == ProcessMessages(msgs)
  {
    out := [];
    var i := |msgs|;
    while i > 0
      invariant 0 <= i <= |msgs|
      invariant out == MapItems(msgs[i..], CleanItems)
    {
      i := i - 1;
      assert msgs[i..][1..] == msgs[i + 1..];
      if HasItems(msgs[i]) {
        var items := CleanMessageItems(msgs[i].items.value);
        out := [msgs[i].(items := Some(items))] + out;
      }
    }
    assert msgs[0..] == msgs;
  }

  // ---------------------------------------------------------------------------
  // What the cleanup guarantees
  // ---------------------------------------------------------------------------

  /** `a` is `b` with some elements left out, the rest in the same order. */
  predicate IsSubseq<T(==)>(a: seq<T>, b: seq<T>)
    decreases |b|
  {
    if b == [] then a == []
    else
      IsSubseq(a, b[..|b| - 1])
      || (a != [] && a[|a| - 1] == b[|b| - 1] && IsSubseq(a[..|a| - 1], b[..|b| - 1]))
  }

  lemma SubseqSkip<T>(a: seq<T>, b: seq<T>, x: T)
    requires IsSubseq(a, b)
    ensures IsSubseq(a, b + [x])
  {
    assert (b + [x])[..|b|] == b;
  }

  lemma SubseqTake<T>(a: seq<T>, b: seq<T>, x: T)
    requires IsSubseq(a, b)
    ensures IsSubseq(a + [x], b + [x])
  {
    assert (b + [x])[..|b|] == b;
    assert (a + [x])[..|a|] == a;
  }

  lemma {:induction false} SubseqRefl<T>(a: seq<T>)
    ensures IsSubseq(a, a)
    decreases |a|
  {
    if a != [] {
      SubseqRefl(a[..|a| - 1]);
    }
  }

  lemma {:induction false} SubseqTrans<T>(a: seq<T>, b: seq<T>, c: seq<T>)
    requires IsSubseq(a, b) && IsSubseq(b, c)
    ensures IsSubseq(a, c)
    decreases |c|
  {
    if c != [] {
      var c' := c[..|c| - 1];
      if IsSubseq(b, c') {
        SubseqTrans(a, b, c');
      } else {
        var b' := b[..|b| - 1];
        if IsSubseq(a, b') {
          SubseqTrans(a, b', c');
        } else {
          SubseqTrans(a[..|a| - 1], b', c');
        }
      }
    }
  }

  /** Every item of a subsequence is an item of the whole. */
  lemma {:induction false} SubseqIn<T>(a: seq<T>, b: seq<T>)
    requires IsSubseq(a, b)
    ensures forall k :: 0 <= k < |a| ==> a[k] in b
    decreases |b|
  {
    if b != [] {
      var b' := b[..|b| - 1];
      if IsSubseq(a, b') {
        SubseqIn(a, b');
      } else {
        var a' := a[..|a| - 1];
        SubseqIn(a', b');
        forall k | 0 <= k < |a| ensures a[k] in b {
          if k < |a'| {
            assert a[k] == a'[k];
          }
        }
      }
    }
  }

  /** Leaving items out cannot create two items that are the same. */
  lemma {:induction false} SubseqDistinct(a: seq<Item>, b: seq<Item>, same: (Item, Item) -> bool)
    requires IsSubseq(a, b) && DistinctBy(b, same)
    ensures DistinctBy(a, same)
    decreases |b|
  {
    if b != [] {
      var b' := b[..|b| - 1];
      assert DistinctBy(b', same);
      if IsSubseq(a, b') {
        SubseqDistinct(a, b', same);
      } else {
        var a' := a[..|a| - 1];
        SubseqDistinct(a', b', same);
        SubseqIn(a', b');
        DistinctLast(a, b, same);
      }
    }
  }

  lemma DistinctLast(a: seq<Item>, b: seq<Item>, same: (Item, Item) -> bool)
    requires a != [] && b != [] && a[|a| - 1] == b[|b| - 1] && DistinctBy(b, same)
    requires DistinctBy(a[..|a| - 1], same)
    requires forall k :: 0 <= k < |a| - 1 ==> a[k] in b[..|b| - 1]
    ensures DistinctBy(a, same)
  {
    var a', b' := a[..|a| - 1], b[..|b| - 1];
    forall i | 0 <= i < |a'| ensures !same(a'[i], b[|b| - 1]) {
      assert a'[i] in b';
      var m :| 0 <= m < |b'| && b'[m] == a'[i];
      assert b[m] == a'[i];
    }
    DistinctAppend(a', b[|b| - 1], same);
    assert a' + [b[|b| - 1]] == a;
  }

  /** An item unlike every item before it keeps the items distinct. */
  lemma DistinctAppend(s: seq<Item>, x: Item, same: (Item, Item) -> bool)
    requires DistinctBy(s, same)
    requires forall i :: 0 <= i < |s| ==> !same(s[i], x)
    ensures DistinctBy(s + [x], same)
  {
    var t := s + [x];
    forall i, j | 0 <= i < j < |t| ensures !same(t[i], t[j]) {
      if j < |s| {
        assert t[i] == s[i] && t[j] == s[j];
      } else {
        assert t[i] == s[i] && t[j] == x;
      }
    }
  }

  /** The first pass keeps some of its input, in order. */
  lemma {:induction false} FirstPassSubseq(items: seq<Item>)
    ensures IsSubseq(FirstPass(items).kept, items)
    decreases |items|
  {
    if items != [] {
      var init, it := items[..|items| - 1], items[|items| - 1];
      FirstPassSubseq(init);
      assert init + [it] == items;
      var st := FirstPass(init);
      if Step(st, it).kept == st.kept {
        SubseqSkip(st.kept, init, it);
      } else {
        assert Step(st, it).kept == st.kept + [it];
        SubseqTake(st.kept, init, it);
      }
    }
  }

  /** Every item the first pass keeps has its key in the matching seen-set. */
  predicate KeysSeen(st: PassState) {
    forall k :: 0 <= k < |st.kept| ==> KeySeen(st, st.kept[k])
  }

  /** The item's key, for the kinds that have one, is in the matching seen-set. */
  predicate KeySeen(st: PassState, x: Item) {
    (x.Text? ==> TextKey(x.content) in st.seenText)
    && (x.Equation? ==> NormalizeEquation(x.content) in st.seenEquations)
    && (x.Code? ==> CodeKey(x.content) in st.seenCode)
  }

  /** One step keeps every kept item's key in its seen-set: the sets only grow, and a kept item's key is added. */
  lemma StepKeysSeen(st: PassState, it: Item)
    requires KeysSeen(st)
    ensures KeysSeen(Step(st, it))
  {
    var st' := Step(st, it);
    StepSeenGrows(st, it);
    if st'.kept == st.kept {
      assert KeysSeen(st');
    } else {
      StepKeyAdded(st, it);
      forall k | 0 <= k < |st'.kept| ensures KeySeen(st', st'.kept[k]) {
        if k < |st.kept| {
          assert st'.kept[k] == st.kept[k] && KeySeen(st, st.kept[k]);
        }
      }
    }
  }

  /** The seen-sets only grow. */
  lemma StepSeenGrows(st: PassState, it: Item)
    ensures st.seenText <= Step(st, it).seenText
    ensures st.seenEquations <= Step(st, it).seenEquations
    ensures st.seenCode <= Step(st, it).seenCode
  {
  }

  /** A kept item comes last and its key is in the new seen-set. */
  lemma StepKeyAdded(st: PassState, it: Item)
    requires Step(st, it).kept != st.kept
    ensures Step(st, it).kept == st.kept + [it] && KeySeen(Step(st, it), it)
  {
  }

  /** One step keeps an item only when its key is not in the seen-set, so the kept items stay distinct. */
  lemma StepDistinct(st: PassState, it: Item)
    requires KeysSeen(st) && DistinctKeys(st.kept)
    ensures DistinctKeys(Step(st, it).kept)
  {
    if Step(st, it).kept != st.kept {
      StepKeyAdded(st, it);
      StepKeyFresh(st, it);
      forall i | 0 <= i < |st.kept| ensures !SameKey(st.kept[i], it) {
        SeenNotFresh(st, st.kept[i], it);
      }
      DistinctAppend(st.kept, it, SameKey);
    }
  }

  /** The item's key, for the kinds that have one, is not in the matching seen-set. */
  predicate KeyFresh(st: PassState, x: Item) {
    (x.Text? ==> TextKey(x.content) !in st.seenText)
    && (x.Equation? ==> NormalizeEquation(x.content) !in st.seenEquations)
    && (x.Code? ==> CodeKey(x.content) !in st.seenCode)
  }

  /** A step keeps an item only when its key has not been seen. */
  lemma StepKeyFresh(st: PassState, it: Item)
    requires Step(st, it).kept != st.kept
    ensures KeyFresh(st, it)
  {
  }

  /** An item whose key was seen and one whose key was not do not share a key. */
  lemma SeenNotFresh(st: PassState, x: Item, y: Item)
    requires KeySeen(st, x) && KeyFresh(st, y)
    ensures !SameKey(x, y)
  {
  }

  /** Every item the first pass keeps has its key in the matching seen-set. */
  lemma {:induction false} FirstPassKeysSeen(items: seq<Item>)
    ensures KeysSeen(FirstPass(items))
    decreases |items|
  {
    if items != [] {
      FirstPassKeysSeen(items[..|items| - 1]);
      StepKeysSeen(FirstPass(items[..|items| - 1]), items[|items| - 1]);
    }
  }

  /** The seen-sets make the first pass keep at most one item per key. */
  lemma {:induction false} FirstPassDistinct(items: seq<Item>)
    ensures DistinctKeys(FirstPass(items).kept)
    decreases |items|
  {
    if items != [] {
      var init := items[..|items| - 1];
      FirstPassDistinct(init);
      FirstPassKeysSeen(init);
      StepDistinct(FirstPass(init), items[|items| - 1]);
    }
  }

  /** An item worth drawing: not empty, and not a toolbar caption when it is text. */
  predicate Presentable(it: Item) {
    !Empty(it) && (it.Text? ==> !IsUIControlText(it.content))
  }

  /** One step keeps only presentable items. */
  lemma StepPresentable(st: PassState, it: Item)
    requires Step(st, it).kept != st.kept
    ensures Step(st, it).kept == st.kept + [it] && Presentable(it)
  {
    if it.Text? {
      UIControlTrim(it.content);
    }
  }

  /** No toolbar caption and no empty item survives the first pass. */
  lemma {:induction false} FirstPassNoCaption(items: seq<Item>)
    ensures forall k :: 0 <= k < |FirstPass(items).kept| ==> Presentable(FirstPass(items).kept[k])
    decreases |items|
  {
    if items != [] {
      var init, it := items[..|items| - 1], items[|items| - 1];
      FirstPassNoCaption(init);
      var st := FirstPass(init);
      if Step(st, it).kept != st.kept {
        StepPresentable(st, it);
      }
    }
  }

  /** The tables of a sequence of items, in order. */
  function Tables(s: seq<Item>): (r: seq<Item>)
    ensures forall k :: 0 <= k < |r| ==> r[k].Table? && r[k] in s
    decreases |s|
  {
    if s == [] then []
    else Tables(s[..|s| - 1]) + (if s[|s| - 1].Table? then [s[|s| - 1]] else [])
  }

  lemma TablesAppend(s: seq<Item>, x: Item)
    ensures Tables(s + [x]) == Tables(s) + (if x.Table? then [x] else [])
  {
    assert (s + [x])[..|s|] == s;
  }

  /** Reclassification only turns text into equations, so the tables stay as they were. */
  lemma {:induction false} ReclassifyTables(items: seq<Item>)
    ensures Tables(ReclassifyAll(items)) == Tables(items)
    decreases |items|
  {
    if items != [] {
      var init := items[..|items| - 1];
      ReclassifyTables(init);
      assert ReclassifyAll(items)[..|items| - 1] == ReclassifyAll(init);
    }
  }

  lemma {:induction false} FirstPassTables(items: seq<Item>)
    ensures Tables(FirstPass(items).kept) == Tables(items)
    decreases |items|
  {
    if items != [] {
      var init, it := items[..|items| - 1], items[|items| - 1];
      FirstPassTables(init);
      var st := FirstPass(init);
      if it.Table? {
        TablesAppend(st.kept, it);
      } else if Step(st, it).kept != st.kept {
        assert Step(st, it).kept == st.kept + [it];
        TablesAppend(st.kept, it);
      }
    }
  }

  lemma {:induction false} SelectSubseq(p: seq<Item>, keep: seq<bool>, n: nat)
    requires n <= |p| == |keep|
    ensures IsSubseq(Select(p, keep, n), p[..n])
    decreases n
  {
    if n > 0 {
      var r := Select(p, keep, n - 1);
      SelectSubseq(p, keep, n - 1);
      assert p[..n] == p[..n - 1] + [p[n - 1]];
      if keep[n - 1] {
        assert Select(p, keep, n) == r + [p[n - 1]];
        SubseqTake(r, p[..n - 1], p[n - 1]);
      } else {
        assert Select(p, keep, n) == r;
        SubseqSkip(r, p[..n - 1], p[n - 1]);
      }
    }
  }

  lemma {:induction false} SelectTables(p: seq<Item>, keep: seq<bool>, n: nat)
    requires n <= |p| == |keep|
    requires forall i :: 0 <= i < |p| && p[i].Table? ==> keep[i]
    ensures Tables(Select(p, keep, n)) == Tables(p[..n])
    decreases n
  {
    if n > 0 {
      var r := Select(p, keep, n - 1);
      SelectTables(p, keep, n - 1);
      assert p[..n] == p[..n - 1] + [p[n - 1]];
      TablesAppend(p[..n - 1], p[n - 1]);
      if keep[n - 1] {
        assert Select(p, keep, n) == r + [p[n - 1]];
        TablesAppend(r, p[n - 1]);
      } else {
        assert Select(p, keep, n) == r;
      }
    }
  }

  /** The second pass keeps some of the first pass's output, in order. */
  lemma SecondPassSubseq(p: seq<Item>, bullets: seq<string>, numbered: seq<string>)
    ensures IsSubseq(SecondPass(p, bullets, numbered), p)
  {
    SelectSubseq(p, SecondPassFlags(p, bullets, numbered), |p|);
    assert p[..|p|] == p;
  }

  /** The items of a cleaned message are its reclassified items with some left out, in their order. */
  lemma CleanItemsSubseq(items: seq<Item>)
    ensures IsSubseq(CleanItems(items), ReclassifyAll(items))
  {
    var st := FirstPass(ReclassifyAll(items));
    SecondPassSubseq(st.kept, st.bullets, st.numbered);
    FirstPassSubseq(ReclassifyAll(items));
    SubseqTrans(CleanItems(items), st.kept, ReclassifyAll(items));
  }

  /** No two items of a cleaned message share a key. */
  lemma CleanItemsDistinct(items: seq<Item>)
    ensures DistinctKeys(CleanItems(items))
  {
    var st := FirstPass(ReclassifyAll(items));
    SecondPassSubseq(st.kept, st.bullets, st.numbered);
    FirstPassDistinct(ReclassifyAll(items));
    SubseqDistinct(CleanItems(items), st.kept, SameKey);
  }

  /** No item of a cleaned message is empty or a toolbar caption. */
  lemma CleanItemsPresentable(items: seq<Item>)
    ensures forall k :: 0 <= k < |CleanItems(items)| ==> Presentable(CleanItems(items)[k])
  {
    var st := FirstPass(ReclassifyAll(items));
    SecondPassSubseq(st.kept, st.bullets, st.numbered);
    FirstPassNoCaption(ReclassifyAll(items));
    SubseqIn(CleanItems(items), st.kept);
  }

  /** Every item of a cleaned message is one of the input items, reclassified. */
  lemma CleanItemsFromInput(items: seq<Item>)
    ensures forall k :: 0 <= k < |CleanItems(items)| ==>
      exists i :: 0 <= i < |items| && CleanItems(items)[k] == Reclassify(items[i])
  {
    var re, out := ReclassifyAll(items), CleanItems(items);
    CleanItemsSubseq(items);
    SubseqIn(out, re);
    forall k | 0 <= k < |out| ensures exists i :: 0 <= i < |items| && out[k] == Reclassify(items[i]) {
      var i :| 0 <= i < |re| && re[i] == out[k];
      assert out[k] == Reclassify(items[i]);
    }
  }

  /** Cleaning keeps every table of the message, in order. */
  lemma CleanItemsTables(items: seq<Item>)
    ensures Tables(CleanItems(items)) == Tables(items)
  {
    var st := FirstPass(ReclassifyAll(items));
    SecondPassKeepsTables(st.kept, st.bullets, st.numbered);
    SelectTables(st.kept, SecondPassFlags(st.kept, st.bullets, st.numbered), |st.kept|);
    assert st.kept[..|st.kept|] == st.kept;
    FirstPassTables(ReclassifyAll(items));
    ReclassifyTables(items);
  }

  /** The messages whose items are a non-empty array, in order. */
  function Keepers(msgs: seq<Message>): (r: seq<Message>)
    ensures forall k :: 0 <= k < |r| ==> HasItems(r[k]) && r[k] in msgs
    decreases |msgs|
  {
    if msgs == [] then []
    else (if HasItems(msgs[0]) then [msgs[0]] else []) + Keepers(msgs[1..])
  }

  lemma {:induction false} KeepersComplete(msgs: seq<Message>)
    ensures forall m :: m in msgs && HasItems(m) ==> m in Keepers(msgs)
    decreases |msgs|
  {
    if msgs != [] {
      KeepersComplete(msgs[1..]);
      forall m | m in msgs && HasItems(m) ensures m in Keepers(msgs) {
        if m != msgs[0] {
          assert m in msgs[1..];
        }
      }
    }
  }

  /**
   * The output holds one message per input message with a non-empty item
   * array, in order, even when cleaning leaves it without items; only the
   * items change.
   */
  lemma ProcessMessagesKeeps(msgs: seq<Message>)
    ensures |ProcessMessages(msgs)| == |Keepers(msgs)|
    ensures forall k :: 0 <= k < |Keepers(msgs)| ==>
      var m, out := Keepers(msgs)[k], ProcessMessages(msgs)[k];
      out.speaker == m.speaker && out.timestamp == m.timestamp
      && out.items == Some(CleanItems(m.items.value))
  {
    MapItemsKeeps(msgs, CleanItems);
  }

  lemma {:induction false} MapItemsKeeps(msgs: seq<Message>, clean: seq<Item> -> seq<Item>)
    ensures |MapItems(msgs, clean)| == |Keepers(msgs)|
    ensures forall k :: 0 <= k < |Keepers(msgs)| ==>
      var m, out := Keepers(msgs)[k], MapItems(msgs, clean)[k];
      out.speaker == m.speaker && out.timestamp == m.timestamp
      && out.items == Some(clean(m.items.value))
    decreases |msgs|
  {
    if msgs != [] {
      MapItemsKeeps(msgs[1..], clean);
    }
  }
}
