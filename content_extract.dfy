/**
 * The content script's extraction control logic, with the page abstracted
 * away: each selector strategy is a list of blocks, and each block is a
 * record holding what the DOM queries would have read from it — its text,
 * its class attribute, who wrote it, its position and the fragments its
 * segment walk meets, in document order.
 *
 * `ContentExtractor` holds the module-level conversation data (title and
 * messages) and its methods update it as the script does: the title from
 * the page title, one message per selected block that yields items, and the
 * whole-page fallback when no block yields any.
 */
module Extraction {
  import opened Optional
  import opened JsText
  import opened EquationText
  import opened PageText
  import opened Cleanup

  // ---------------------------------------------------------------------------
  // Blocks and their fragments
  // ---------------------------------------------------------------------------

  /**
   * What the segment walk of a block pushes, before the equation guard:
   * an equation (its content as pushed: a trimmed line, a paragraph or the
   * trimmed `data-latex`), a text (list items get a bullet), a code block
   * (its text and the class attribute of its `pre`), a table, or an image.
   */
  datatype Fragment =
    | EquationPart(content: string, y: int)
    | TextPart(text: string, bullet: bool, y: int)
    | CodePart(code: string, className: Option<string>, y: int)
    | TablePart(headers: seq<string>, rows: seq<seq<string>>, y: int)
    | ImagePart(src: string, y: int)

  /**
   * A message block: its `textContent`, `className` and `innerText`, whether
   * it carries the `ui-control-ignore` class, whether a user role was found
   * for it, its top position, the simple text before its first structured
   * child, and its fragments.
   */
  datatype Block = Block(
    textContent: string,
    className: string,
    innerText: string,
    uiIgnore: bool,
    isUser: bool,
    top: int,
    initialText: string,
    fragments: seq<Fragment>)

  /** A block with some non-blank text and none of the classes of UI chrome. */
  predicate IsValidMessageBlock(b: Block) {
    Trim(b.textContent) != []
    && !Contains(b.className, "cursor-pointer")
    && !Contains(b.className, "absolute")
    && !Contains(b.className, "hidden")
  }

  function Speaker(b: Block): string {
    if b.isUser then "User" else "Assistant"
  }

  // ---------------------------------------------------------------------------
  // Items of one block: the equation guard
  // ---------------------------------------------------------------------------

  /** Each cell of a table row, trimmed and sanitized, as `sanitizeTextForPDF(td.innerText.trim())`. */
  function CleanCells(cells: seq<string>): seq<string> {
    seq(|cells|, j requires 0 <= j < |cells| => Sanitize(Trim(cells[j])))
  }

  /** `filter(h => h)`: the non-empty strings, in order. */
  function NonEmpty(xs: seq<string>): (r: seq<string>)
    ensures |r| <= |xs|
    ensures forall x :: x in r ==> x != [] && x in xs
    ensures forall x :: x in xs && x != [] ==> x in r
    decreases |xs|
  {
    if xs == [] then []
    else (if xs[0] == [] then [] else [xs[0]]) + NonEmpty(xs[1..])
  }

  /** The header cells of a table: each trimmed and sanitized, the empty ones dropped, in order. */
  function TableHeaders(hs: seq<string>): seq<string> {
    NonEmpty(CleanCells(hs))
  }

  /** The body cells of a table, row by row: each trimmed and sanitized, none dropped. */
  function TableRows(rows: seq<seq<string>>): seq<seq<string>> {
    seq(|rows|, i requires 0 <= i < |rows| => CleanCells(rows[i]))
  }

  /** The item a fragment other than an equation becomes, if any. */
  function FragmentItem(f: Fragment): seq<Item> {
    match f
    case EquationPart(_, _) => []
    case TextPart(t, bullet, y) => [Text((if bullet then "• " else "") + Sanitize(t), Some(y))]
    case CodePart(code, cls, y) => [Code(Trim(code), CodeLanguage(cls), Some(y))]
    case TablePart(h, rows, y) => [Table(TableHeaders(h), TableRows(rows), Some(y))]
    case ImagePart(src, y) => if src != [] then [Image(src, Some(y))] else []
  }

  /** The items pushed so far and the set of equation keys already pushed. */
  datatype Walk = Walk(items: seq<Item>, seen: set<string>)

  /**
   * One fragment, with the key of an equation and the item of any other
   * fragment given as parameters: an equation is pushed only when its key
   * is new.
   */
  function WalkStep(w: Walk, f: Fragment, key: string -> string, other: Fragment -> seq<Item>): Walk {
    if f.EquationPart? then
      var k := key(f.content);
      if k in w.seen then w
      else Walk(w.items + [Equation(f.content, Some(f.y))], w.seen + {k})
    else Walk(w.items + other(f), w.seen)
  }

  function WalkAll(w: Walk, frs: seq<Fragment>, key: string -> string, other: Fragment -> seq<Item>): Walk
    decreases |frs|
  {
    if frs == [] then w
    else WalkStep(WalkAll(w, frs[..|frs| - 1], key, other), frs[|frs| - 1], key, other)
  }

  lemma WalkAllNext(w: Walk, frs: seq<Fragment>, i: nat, key: string -> string, other: Fragment -> seq<Item>)
    requires i < |frs|
    ensures WalkAll(w, frs[..i + 1], key, other) == WalkStep(WalkAll(w, frs[..i], key, other), frs[i], key, other)
  {
    assert frs[..i + 1][..i] == frs[..i];
  }

  /** The initial text item, when the text before the first structured child is valid content. */
  function InitialItems(b: Block): seq<Item> {
    var t := Trim(b.initialText);
    if t != [] && IsValidContent(t) then [Text(Sanitize(t), Some(b.top))] else []
  }

  /** The items of a block, in the order they are pushed. */
  function BlockItems(b: Block): seq<Item> {
    WalkAll(Walk(InitialItems(b), {}), b.fragments, NormalizeEquation, FragmentItem).items
  }

  /** The messages a block adds: none for UI controls or a block without items, else one, sorted by position. */
  function BlockMessages(b: Block, now: string): seq<Message> {
    if b.uiIgnore || IsUIControlText(b.textContent) then []
    else
      var items := BlockItems(b);
      if items == [] then [] else [Message(Speaker(b), now, Some(SortByY(items)))]
  }

  /** No fragment becomes an equation item other than through the guard. */
  predicate NoEquations(s: seq<Item>) {
    forall i :: 0 <= i < |s| ==> !s[i].Equation?
  }

  // Keys of the equations: those of a list of items and those of a list of fragments.

  function EquationKeys(s: seq<Item>, key: string -> string): set<string>
    decreases |s|
  {
    if s == [] then {}
    else EquationKeys(s[..|s| - 1], key) + (if s[|s| - 1].Equation? then {key(s[|s| - 1].content)} else {})
  }

  function FragmentKeys(frs: seq<Fragment>, key: string -> string): set<string>
    decreases |frs|
  {
    if frs == [] then {}
    else FragmentKeys(frs[..|frs| - 1], key) + (if frs[|frs| - 1].EquationPart? then {key(frs[|frs| - 1].content)} else {})
  }

  /** Two equation items with the same key. */
  function SameEquation(key: string -> string): (Item, Item) -> bool {
    (a: Item, b: Item) => a.Equation? && b.Equation? && key(a.content) == key(b.content)
  }

  /** The items that are not equations. */
  function NonEquations(s: seq<Item>): seq<Item>
    decreases |s|
  {
    if s == [] then []
    else NonEquations(s[..|s| - 1]) + (if s[|s| - 1].Equation? then [] else [s[|s| - 1]])
  }

  /** The items the fragments other than equations become, in order. */
  function OtherItems(frs: seq<Fragment>, other: Fragment -> seq<Item>): seq<Item>
    decreases |frs|
  {
    if frs == [] then []
    else OtherItems(frs[..|frs| - 1], other) + (if frs[|frs| - 1].EquationPart? then [] else other(frs[|frs| - 1]))
  }

  /** What the walk keeps true: its set holds exactly the keys of the equations pushed, and those are distinct. */
  predicate WalkInv(w: Walk, key: string -> string) {
    w.seen == EquationKeys(w.items, key) && DistinctBy(w.items, SameEquation(key))
  }

  lemma {:induction false} EquationKeysAppend(s: seq<Item>, t: seq<Item>, key: string -> string)
    requires NoEquations(t)
    ensures EquationKeys(s + t, key) == EquationKeys(s, key)
    decreases |t|
  {
    if t == [] {
      assert s + t == s;
    } else {
      assert (s + t)[..|s + t| - 1] == s + t[..|t| - 1];
      assert (s + t)[|s + t| - 1] == t[|t| - 1];
      EquationKeysAppend(s, t[..|t| - 1], key);
    }
  }

  lemma {:induction false} EquationKeysIn(s: seq<Item>, i: nat, key: string -> string)
    requires i < |s| && s[i].Equation?
    ensures key(s[i].content) in EquationKeys(s, key)
    decreases |s|
  {
    if i < |s| - 1 {
      EquationKeysIn(s[..|s| - 1], i, key);
    }
  }

  /** Pushing items that are not equations keeps the equations distinct. */
  lemma DistinctOthers(s: seq<Item>, t: seq<Item>, key: string -> string)
    requires DistinctBy(s, SameEquation(key)) && NoEquations(t)
    ensures DistinctBy(s + t, SameEquation(key))
  {
    var u := s + t;
    forall i, j | 0 <= i < j < |u| ensures !SameEquation(key)(u[i], u[j]) {
      if j < |s| {
        assert u[i] == s[i] && u[j] == s[j];
      } else {
        assert u[j] == t[j - |s|];
      }
    }
  }

  /** Pushing an equation whose key is not among the keys pushed keeps the equations distinct. */
  lemma DistinctNewKey(s: seq<Item>, x: Item, key: string -> string)
    requires DistinctBy(s, SameEquation(key)) && x.Equation? && key(x.content) !in EquationKeys(s, key)
    ensures DistinctBy(s + [x], SameEquation(key))
  {
    forall i | 0 <= i < |s| ensures !SameEquation(key)(s[i], x) {
      if s[i].Equation? {
        EquationKeysIn(s, i, key);
      }
    }
    DistinctAppend(s, x, SameEquation(key));
  }

  lemma WalkStepInv(w: Walk, f: Fragment, key: string -> string, other: Fragment -> seq<Item>)
    requires WalkInv(w, key) && forall g :: NoEquations(other(g))
    ensures WalkInv(WalkStep(w, f, key, other), key)
  {
    if f.EquationPart? {
      if key(f.content) !in w.seen {
        var x := Equation(f.content, Some(f.y));
        DistinctNewKey(w.items, x, key);
        assert (w.items + [x])[..|w.items|] == w.items;
      }
    } else {
      EquationKeysAppend(w.items, other(f), key);
      DistinctOthers(w.items, other(f), key);
    }
  }

  /** The walk keeps its invariant over any fragments. */
  lemma {:induction false} WalkAllInv(w: Walk, frs: seq<Fragment>, key: string -> string, other: Fragment -> seq<Item>)
    requires WalkInv(w, key) && forall g :: NoEquations(other(g))
    ensures WalkInv(WalkAll(w, frs, key, other), key)
    decreases |frs|
  {
    if frs != [] {
      WalkAllInv(w, frs[..|frs| - 1], key, other);
      WalkStepInv(WalkAll(w, frs[..|frs| - 1], key, other), frs[|frs| - 1], key, other);
    }
  }

  /** The keys seen after a walk are those seen before plus those of the equation fragments. */
  lemma {:induction false} WalkAllSeen(w: Walk, frs: seq<Fragment>, key: string -> string, other: Fragment -> seq<Item>)
    ensures WalkAll(w, frs, key, other).seen == w.seen + FragmentKeys(frs, key)
    decreases |frs|
  {
    if frs != [] {
      WalkAllSeen(w, frs[..|frs| - 1], key, other);
    }
  }

  lemma {:induction false} NonEquationsAppend(s: seq<Item>, t: seq<Item>)
    ensures NonEquations(s + t) == NonEquations(s) + NonEquations(t)
    decreases |t|
  {
    if t == [] {
      assert s + t == s;
    } else {
      assert (s + t)[..|s + t| - 1] == s + t[..|t| - 1];
      NonEquationsAppend(s, t[..|t| - 1]);
    }
  }

  lemma {:induction false} NonEquationsNone(t: seq<Item>)
    requires NoEquations(t)
    ensures NonEquations(t) == t
    decreases |t|
  {
    if t != [] {
      NonEquationsNone(t[..|t| - 1]);
      assert t == t[..|t| - 1] + [t[|t| - 1]];
    }
  }

  lemma WalkStepOthers(v: Walk, f: Fragment, key: string -> string, other: Fragment -> seq<Item>)
    requires NoEquations(other(f))
    ensures NonEquations(WalkStep(v, f, key, other).items) == NonEquations(v.items) + (if f.EquationPart? then [] else other(f))
  {
    if f.EquationPart? {
      if key(f.content) !in v.seen {
        var x := Equation(f.content, Some(f.y));
        NonEquationsAppend(v.items, [x]);
        assert NonEquations([x]) == NonEquations([]) + [];
      }
    } else {
      NonEquationsAppend(v.items, other(f));
      NonEquationsNone(other(f));
    }
  }

  /** Equations aside, the walk pushes the items of the other fragments, in order. */
  lemma {:induction false} WalkAllOthers(w: Walk, frs: seq<Fragment>, key: string -> string, other: Fragment -> seq<Item>)
    requires forall g :: NoEquations(other(g))
    ensures NonEquations(WalkAll(w, frs, key, other).items) == NonEquations(w.items) + OtherItems(frs, other)
    decreases |frs|
  {
    if frs != [] {
      WalkAllOthers(w, frs[..|frs| - 1], key, other);
      WalkOthersStep(w, frs, key, other);
    }
  }

  /** One step of `WalkAllOthers`: the last fragment's items extend both sides. */
  lemma WalkOthersStep(w: Walk, frs: seq<Fragment>, key: string -> string, other: Fragment -> seq<Item>)
    requires frs != [] && NoEquations(other(frs[|frs| - 1]))
    requires NonEquations(WalkAll(w, frs[..|frs| - 1], key, other).items)
      == NonEquations(w.items) + OtherItems(frs[..|frs| - 1], other)
    ensures NonEquations(WalkAll(w, frs, key, other).items) == NonEquations(w.items) + OtherItems(frs, other)
  {
    var frs', f := frs[..|frs| - 1], frs[|frs| - 1];
    var v := WalkAll(w, frs', key, other);
    WalkStepOthers(v, f, key, other);
    assert WalkAll(w, frs, key, other) == WalkStep(v, f, key, other);
    var step := if f.EquationPart? then [] else other(f);
    assert OtherItems(frs, other) == OtherItems(frs', other) + step;
    AppendChain(NonEquations(WalkAll(w, frs, key, other).items), NonEquations(v.items),
      NonEquations(w.items), OtherItems(frs', other), step, OtherItems(frs, other));
  }

  /** Appending the step's items to both sides of an equation about the earlier items. */
  lemma AppendChain<T>(total: seq<T>, prev: seq<T>, base: seq<T>, olds: seq<T>, step: seq<T>, all: seq<T>)
    requires total == prev + step && prev == base + olds && all == olds + step
    ensures total == base + all
  {
  }

  /**
   * The headers of a table are exactly the non-empty sanitized header
   * cells: each comes from a header cell, and no non-empty one is lost.
   */
  lemma TableHeadersExact(hs: seq<string>)
    ensures forall x :: x in TableHeaders(hs) ==>
      x != [] && exists j :: 0 <= j < |hs| && x == Sanitize(Trim(hs[j]))
    ensures forall j :: 0 <= j < |hs| && Sanitize(Trim(hs[j])) != [] ==> Sanitize(Trim(hs[j])) in TableHeaders(hs)
  {
    var cells := CleanCells(hs);
    forall x | x in TableHeaders(hs) ensures exists j :: 0 <= j < |hs| && x == Sanitize(Trim(hs[j])) {
      var j :| 0 <= j < |cells| && cells[j] == x;
    }
    forall j | 0 <= j < |hs| && Sanitize(Trim(hs[j])) != [] ensures Sanitize(Trim(hs[j])) in TableHeaders(hs) {
      assert cells[j] in cells;
    }
  }

  /**
   * A table item holds sanitized text only: its headers are non-empty and
   * unchanged by sanitizing again, and it has one row per table row and
   * one cell per table cell, each the sanitized trimmed cell text.
   */
  lemma TableItemClean(h: seq<string>, rows: seq<seq<string>>, y: int)
    ensures var it := FragmentItem(TablePart(h, rows, y))[0];
      && (forall x :: x in it.headers ==> x != [] && Sanitize(x) == x)
      && |it.rows| == |rows|
      && (forall i :: 0 <= i < |rows| ==> |it.rows[i]| == |rows[i]|)
      && (forall i, j :: 0 <= i < |rows| && 0 <= j < |rows[i]| ==>
            it.rows[i][j] == Sanitize(Trim(rows[i][j])) && Sanitize(it.rows[i][j]) == it.rows[i][j])
  {
    TableHeadersExact(h);
    forall x | x in TableHeaders(h) ensures Sanitize(x) == x {
      var j :| 0 <= j < |h| && x == Sanitize(Trim(h[j]));
      SanitizeIdempotent(Trim(h[j]));
    }
    forall i, j | 0 <= i < |rows| && 0 <= j < |rows[i]| ensures Sanitize(Sanitize(Trim(rows[i][j]))) == Sanitize(Trim(rows[i][j])) {
      SanitizeIdempotent(Trim(rows[i][j]));
    }
  }

  lemma FragmentItemsPlain()
    ensures forall g :: NoEquations(FragmentItem(g))
  {
  }

  /** The equation guard of a block: no two equation items share a normalized key. */
  lemma BlockEquationsDistinct(b: Block)
    ensures DistinctBy(BlockItems(b), SameEquation(NormalizeEquation))
  {
    FragmentItemsPlain();
    DistinctOthers([], InitialItems(b), NormalizeEquation);
    EquationKeysAppend([], InitialItems(b), NormalizeEquation);
    assert [] + InitialItems(b) == InitialItems(b);
    WalkAllInv(Walk(InitialItems(b), {}), b.fragments, NormalizeEquation, FragmentItem);
  }

  /**
   * Only repeats are dropped: the keys of the equation items of a block are
   * exactly the keys of the equations its walk met.
   */
  lemma BlockEquationKeys(b: Block)
    ensures EquationKeys(BlockItems(b), NormalizeEquation) == FragmentKeys(b.fragments, NormalizeEquation)
  {
    var w := Walk(InitialItems(b), {});
    FragmentItemsPlain();
    DistinctOthers([], InitialItems(b), NormalizeEquation);
    EquationKeysAppend([], InitialItems(b), NormalizeEquation);
    assert [] + InitialItems(b) == InitialItems(b);
    WalkAllInv(w, b.fragments, NormalizeEquation, FragmentItem);
    WalkAllSeen(w, b.fragments, NormalizeEquation, FragmentItem);
  }

  /** Every fragment other than an equation yields its item, in order, after the initial text. */
  lemma BlockOthers(b: Block)
    ensures NonEquations(BlockItems(b)) == InitialItems(b) + OtherItems(b.fragments, FragmentItem)
  {
    FragmentItemsPlain();
    WalkAllOthers(Walk(InitialItems(b), {}), b.fragments, NormalizeEquation, FragmentItem);
    NonEquationsNone(InitialItems(b));
  }

  // ---------------------------------------------------------------------------
  // items.sort((a, b) => (a.y || 0) - (b.y || 0)), a stable sort
  // ---------------------------------------------------------------------------

  /** The sort key: the position, or 0 when there is none. */
  function YKey(it: Item): int {
    it.y.GetOr(0)
  }

  /** The items of a block ordered by position, as the stable library sort orders them. */
  function SortByY(items: seq<Item>): seq<Item> {
    SortBy(items, YKey)
  }

  predicate SortedBy<T>(s: seq<T>, key: T -> int) {
    forall i, j :: 0 <= i < j < |s| ==> key(s[i]) <= key(s[j])
  }

  /** Places `x` after every element of `sorted` whose key is not greater than its own. */
  function InsertBy<T>(sorted: seq<T>, x: T, key: T -> int): seq<T>
    decreases |sorted|
  {
    if sorted == [] || key(sorted[|sorted| - 1]) <= key(x) then sorted + [x]
    else InsertBy(sorted[..|sorted| - 1], x, key) + [sorted[|sorted| - 1]]
  }

  /** Insertion sort from the front, which keeps elements with equal keys in their input order. */
  function SortBy<T>(s: seq<T>, key: T -> int): seq<T>
    decreases |s|
  {
    if s == [] then []
    else InsertBy(SortBy(s[..|s| - 1], key), s[|s| - 1], key)
  }

  /** The elements whose key is `k`, in order. */
  function WithKey<T>(s: seq<T>, key: T -> int, k: int): seq<T>
    decreases |s|
  {
    if s == [] then []
    else WithKey(s[..|s| - 1], key, k) + (if key(s[|s| - 1]) == k then [s[|s| - 1]] else [])
  }

  lemma {:induction false} InsertPermutes<T>(sorted: seq<T>, x: T, key: T -> int)
    ensures multiset(InsertBy(sorted, x, key)) == multiset(sorted) + multiset{x}
    decreases |sorted|
  {
    if sorted != [] && key(sorted[|sorted| - 1]) > key(x) {
      var init, last := sorted[..|sorted| - 1], sorted[|sorted| - 1];
      InsertPermutes(init, x, key);
      assert sorted == init + [last];
    }
  }

  lemma InsertBounded<T>(sorted: seq<T>, x: T, key: T -> int, b: int)
    requires forall i :: 0 <= i < |sorted| ==> key(sorted[i]) <= b
    requires key(x) <= b
    ensures forall i :: 0 <= i < |InsertBy(sorted, x, key)| ==> key(InsertBy(sorted, x, key)[i]) <= b
  {
    var r := InsertBy(sorted, x, key);
    InsertPermutes(sorted, x, key);
    forall i | 0 <= i < |r| ensures key(r[i]) <= b {
      assert r[i] in multiset(r);
      if r[i] != x {
        assert r[i] in multiset(sorted);
      }
    }
  }

  lemma {:induction false} InsertSorted<T>(sorted: seq<T>, x: T, key: T -> int)
    requires SortedBy(sorted, key)
    ensures SortedBy(InsertBy(sorted, x, key), key)
    decreases |sorted|
  {
    if sorted != [] && key(sorted[|sorted| - 1]) > key(x) {
      var init, last := sorted[..|sorted| - 1], sorted[|sorted| - 1];
      InsertSorted(init, x, key);
      InsertBounded(init, x, key, key(last));
    }
  }

  lemma {:induction false} WithKeyAppend<T>(s: seq<T>, t: seq<T>, key: T -> int, k: int)
    ensures WithKey(s + t, key, k) == WithKey(s, key, k) + WithKey(t, key, k)
    decreases |t|
  {
    if t == [] {
      assert s + t == s;
    } else {
      assert (s + t)[..|s + t| - 1] == s + t[..|t| - 1];
      WithKeyAppend(s, t[..|t| - 1], key, k);
    }
  }

  /** Inserting `x` adds it to the elements of its own key after those already there, and leaves other keys alone. */
  lemma {:induction false} InsertWithKey<T>(sorted: seq<T>, x: T, key: T -> int, k: int)
    ensures WithKey(InsertBy(sorted, x, key), key, k) == WithKey(sorted, key, k) + WithKey([x], key, k)
    decreases |sorted|
  {
    if sorted == [] || key(sorted[|sorted| - 1]) <= key(x) {
      WithKeyAppend(sorted, [x], key, k);
    } else {
      var init, last := sorted[..|sorted| - 1], sorted[|sorted| - 1];
      InsertWithKey(init, x, key, k);
      assert sorted == init + [last];
      WithKeyPastLast(InsertBy(init, x, key), init, x, last, key, k);
    }
  }

  /** Moving `x` in front of a `last` with a larger key does not change the elements of any one key. */
  lemma WithKeyPastLast<T>(ins: seq<T>, init: seq<T>, x: T, last: T, key: T -> int, k: int)
    requires key(x) < key(last)
    requires WithKey(ins, key, k) == WithKey(init, key, k) + WithKey([x], key, k)
    ensures WithKey(ins + [last], key, k) == WithKey(init + [last], key, k) + WithKey([x], key, k)
  {
    WithKeyAppend(ins, [last], key, k);
    WithKeyAppend(init, [last], key, k);
    WithKeySingle(x, key, k);
    WithKeySingle(last, key, k);
    var a, wx, wl := WithKey(init, key, k), WithKey([x], key, k), WithKey([last], key, k);
    if wx == [] {
      assert a + wx + wl == a + wl + wx;
    } else {
      assert wl == [];
      assert a + wx + wl == a + wl + wx;
    }
  }

  lemma WithKeySingle<T>(x: T, key: T -> int, k: int)
    ensures WithKey([x], key, k) == if key(x) == k then [x] else []
  {
    assert [x][..0] == [];
  }

  /** The sort returns its input's elements, ordered by key. */
  lemma {:induction false} SortBySorted<T>(s: seq<T>, key: T -> int)
    ensures SortedBy(SortBy(s, key), key)
    ensures multiset(SortBy(s, key)) == multiset(s)
    decreases |s|
  {
    if s != [] {
      var init := s[..|s| - 1];
      SortBySorted(init, key);
      InsertSorted(SortBy(init, key), s[|s| - 1], key);
      InsertPermutes(SortBy(init, key), s[|s| - 1], key);
      assert s == init + [s[|s| - 1]];
    }
  }

  /** The sort is stable: the elements sharing a key keep their input order. */
  lemma {:induction false} SortByStable<T>(s: seq<T>, key: T -> int, k: int)
    ensures WithKey(SortBy(s, key), key, k) == WithKey(s, key, k)
    decreases |s|
  {
    if s != [] {
      var init := s[..|s| - 1];
      SortByStable(init, key, k);
      InsertWithKey(SortBy(init, key), s[|s| - 1], key, k);
    }
  }

  // ---------------------------------------------------------------------------
  // Block selection
  // ---------------------------------------------------------------------------

  /** The trimmed inner text of a block, which the loop compares. */
  function BlockText(b: Block): string {
    Trim(b.innerText)
  }

  /** The blocks processed so far and the text of the last one. */
  datatype Selection<T> = Selection(kept: seq<T>, last: string)

  /**
   * The guard of the block loop, with validity and text as parameters:
   * invalid blocks and a block repeating the non-blank text of the last
   * processed one are skipped.
   */
  function SelectBy<T>(blocks: seq<T>, valid: T -> bool, text: T -> string): Selection<T>
    decreases |blocks|
  {
    if blocks == [] then Selection([], [])
    else SelectStep(SelectBy(blocks[..|blocks| - 1], valid, text), blocks[|blocks| - 1], valid, text)
  }

  /** One block of the loop. */
  function SelectStep<T>(s: Selection<T>, b: T, valid: T -> bool, text: T -> string): Selection<T> {
    if !valid(b) || (text(b) != [] && text(b) == s.last) then s
    else Selection(s.kept + [b], text(b))
  }

  lemma SelectByNext<T>(blocks: seq<T>, i: nat, valid: T -> bool, text: T -> string)
    requires i < |blocks|
    ensures SelectBy(blocks[..i + 1], valid, text) == SelectStep(SelectBy(blocks[..i], valid, text), blocks[i], valid, text)
  {
    assert blocks[..i + 1][..i] == blocks[..i];
  }

  /** The blocks extractCurrentContent processes. */
  function SelectBlocks(blocks: seq<Block>): seq<Block> {
    SelectBy(blocks, IsValidMessageBlock, BlockText).kept
  }

  /** The valid blocks, in order. */
  function ValidOnes<T>(blocks: seq<T>, valid: T -> bool): seq<T>
    decreases |blocks|
  {
    if blocks == [] then []
    else ValidOnes(blocks[..|blocks| - 1], valid) + (if valid(blocks[|blocks| - 1]) then [blocks[|blocks| - 1]] else [])
  }

  /** Whether element `i` is new: its text is blank or differs from the text of the element before it. */
  predicate Fresh<T>(v: seq<T>, i: nat, text: T -> string)
    requires i < |v|
  {
    text(v[i]) == [] || i == 0 || text(v[i]) != text(v[i - 1])
  }

  /** The elements that are new, in order. */
  function FreshOnes<T>(v: seq<T>, text: T -> string): seq<T>
    decreases |v|
  {
    if v == [] then []
    else FreshOnes(v[..|v| - 1], text) + (if Fresh(v, |v| - 1, text) then [v[|v| - 1]] else [])
  }

  /** The remembered text is that of the last valid block, whether or not that block was processed. */
  lemma {:induction false} SelectionLastValid<T>(blocks: seq<T>, valid: T -> bool, text: T -> string)
    ensures var v := ValidOnes(blocks, valid);
      SelectBy(blocks, valid, text).last == (if v == [] then [] else text(v[|v| - 1]))
    decreases |blocks|
  {
    if blocks != [] {
      SelectionLastValid(blocks[..|blocks| - 1], valid, text);
    }
  }

  /** The remembered text is that of the last processed block. */
  lemma {:induction false} SelectionLastKept<T>(blocks: seq<T>, valid: T -> bool, text: T -> string)
    ensures var k := SelectBy(blocks, valid, text).kept;
      SelectBy(blocks, valid, text).last == (if k == [] then [] else text(k[|k| - 1]))
    decreases |blocks|
  {
    if blocks != [] {
      SelectionLastKept(blocks[..|blocks| - 1], valid, text);
    }
  }

  /** The guard keeps exactly the valid blocks whose text is blank or differs from that of the valid block before. */
  lemma {:induction false} SelectByFresh<T>(blocks: seq<T>, valid: T -> bool, text: T -> string)
    ensures SelectBy(blocks, valid, text).kept == FreshOnes(ValidOnes(blocks, valid), text)
    decreases |blocks|
  {
    if blocks != [] {
      var init := blocks[..|blocks| - 1];
      SelectByFresh(init, valid, text);
      SelectionLastValid(init, valid, text);
      var b := blocks[|blocks| - 1];
      if valid(b) {
        var v := ValidOnes(blocks, valid);
        var v' := ValidOnes(init, valid);
        assert v == v' + [b];
        assert v[..|v| - 1] == v';
        assert v' != [] ==> v[|v| - 2] == v'[|v'| - 1];
        assert Fresh(v, |v| - 1, text) <==> !(text(b) != [] && text(b) == SelectBy(init, valid, text).last);
      } else {
        assert ValidOnes(blocks, valid) == ValidOnes(init, valid) + [];
        assert ValidOnes(init, valid) + [] == ValidOnes(init, valid);
      }
    }
  }

  /** Every processed block is valid, and none repeats the non-blank text of the block processed before it. */
  lemma {:induction false} SelectByKept<T>(blocks: seq<T>, valid: T -> bool, text: T -> string)
    ensures var k := SelectBy(blocks, valid, text).kept;
      (forall i :: 0 <= i < |k| ==> valid(k[i]))
      && (forall i :: 0 < i < |k| && text(k[i]) != [] ==> text(k[i]) != text(k[i - 1]))
    decreases |blocks|
  {
    if blocks != [] {
      SelectByKept(blocks[..|blocks| - 1], valid, text);
      SelectionLastKept(blocks[..|blocks| - 1], valid, text);
    }
  }

  /** The processed blocks are some of the blocks, in order. */
  lemma {:induction false} SelectBySubseq<T>(blocks: seq<T>, valid: T -> bool, text: T -> string)
    ensures IsSubseq(SelectBy(blocks, valid, text).kept, blocks)
    decreases |blocks|
  {
    if blocks != [] {
      var init := blocks[..|blocks| - 1];
      SelectBySubseq(init, valid, text);
      var s := SelectBy(init, valid, text);
      if SelectBy(blocks, valid, text) == s {
        SubseqSkip(s.kept, init, blocks[|blocks| - 1]);
      } else {
        SubseqTake(s.kept, init, blocks[|blocks| - 1]);
      }
      assert init + [blocks[|blocks| - 1]] == blocks;
    }
  }

  /**
   * What the block loop processes: some of the blocks in order, all valid,
   * exactly the valid ones whose trimmed text is blank or differs from that
   * of the valid block before them.
   */
  lemma SelectedBlocks(blocks: seq<Block>)
    ensures IsSubseq(SelectBlocks(blocks), blocks)
    ensures forall i :: 0 <= i < |SelectBlocks(blocks)| ==> IsValidMessageBlock(SelectBlocks(blocks)[i])
    ensures SelectBlocks(blocks) == FreshOnes(ValidOnes(blocks, IsValidMessageBlock), BlockText)
  {
    SelectBySubseq(blocks, IsValidMessageBlock, BlockText);
    SelectByKept(blocks, IsValidMessageBlock, BlockText);
    SelectByFresh(blocks, IsValidMessageBlock, BlockText);
  }

  /** The messages the processed blocks add, in order. */
  function MessagesOf(bs: seq<Block>, now: string): seq<Message>
    decreases |bs|
  {
    if bs == [] then [] else MessagesOf(bs[..|bs| - 1], now) + BlockMessages(bs[|bs| - 1], now)
  }

  lemma MessagesOfNext(bs: seq<Block>, b: Block, now: string)
    ensures MessagesOf(bs + [b], now) == MessagesOf(bs, now) + BlockMessages(b, now)
  {
    assert (bs + [b])[..|bs|] == bs;
  }

  /** Each message added has a speaker of the block roles, a non-empty item list and items sorted by position. */
  lemma {:induction false} MessagesOfShape(bs: seq<Block>, now: string)
    ensures forall m :: m in MessagesOf(bs, now) ==>
      (m.speaker == "User" || m.speaker == "Assistant") && HasItems(m) && SortedBy(m.items.value, YKey)
    decreases |bs|
  {
    if bs != [] {
      MessagesOfShape(bs[..|bs| - 1], now);
      var b := bs[|bs| - 1];
      if !(b.uiIgnore || IsUIControlText(b.textContent)) && BlockItems(b) != [] {
        SortBySorted(BlockItems(b), YKey);
        assert |SortByY(BlockItems(b))| == |BlockItems(b)| by {
          assert |multiset(SortByY(BlockItems(b)))| == |multiset(BlockItems(b))|;
        }
      }
    }
  }

  // ---------------------------------------------------------------------------
  // The conversation data and the operations that update it
  // ---------------------------------------------------------------------------

  const FallbackSpeaker := "ChatGPT Conversation"

  /** What the whole-page fallback adds: one text message with the sanitized body text, unless the body is blank. */
  function PageFallback(bodyText: string, now: string): seq<Message> {
    var raw := Trim(bodyText);
    if raw != [] then [Message(FallbackSpeaker, now, Some([Text(Sanitize(raw), None)]))] else []
  }

  /**
   * The segment callback of processMessageBlock for one fragment: an
   * equation is pushed and its key recorded only when the key is new; any
   * other fragment pushes its item.
   */
  method PushFragment(items: seq<Item>, seen: set<string>, f: Fragment)
    returns (items': seq<Item>, seen': set<string>)
    ensures Walk(items', seen') == WalkStep(Walk(items, seen), f, NormalizeEquation, FragmentItem)
  {
    items', seen' := items, seen;
    match f {
      case EquationPart(content, y) =>
        var key := NormalizeEquation(content);
        if key !in seen {
          items' := items + [Equation(content, Some(y))];
          seen' := seen + {key};
        }
      case TextPart(t, bullet, y) =>
        // list items are pushed with a bullet in front
        var mark := if bullet then "• " else "";
        items' := items + [Text(mark + Sanitize(t), Some(y))];
      case CodePart(code, cls, y) =>
        var language := GetCodeLanguage(cls);
        items' := items + [Code(Trim(code), language, Some(y))];
        assert [Code(Trim(code), language, Some(y))] == FragmentItem(f);
      case TablePart(h, rows, y) =>
        var headers := TableHeaders(h);
        var cells := TableRows(rows);
        items' := items + [Table(headers, cells, Some(y))];
        assert [Table(headers, cells, Some(y))] == FragmentItem(f);
      case ImagePart(src, y) =>
        if src != [] {
          items' := items + [Image(src, Some(y))];
        }
    }
  }

  /** The items of a block: the initial text when it is valid content, then the fragments under the equation guard. */
  method CollectItems(b: Block) returns (items: seq<Item>)
    ensures items == BlockItems(b)
  {
    items := [];
    var initial := Trim(b.initialText);
    if initial != [] && IsValidContent(initial) {
      items := items + [Text(Sanitize(initial), Some(b.top))];
    }
    assert items == InitialItems(b);
    ghost var start := Walk(items, {});
    var seen: set<string> := {};
    var i := 0;
    while i < |b.fragments|
      invariant 0 <= i <= |b.fragments|
      invariant Walk(items, seen) == WalkAll(start, b.fragments[..i], NormalizeEquation, FragmentItem)
    {
      items, seen := PushFragment(items, seen, b.fragments[i]);
      WalkAllNext(start, b.fragments, i, NormalizeEquation, FragmentItem);
      i := i + 1;
    }
    assert b.fragments[..i] == b.fragments;
  }

  class ContentExtractor {
    var title: string
    var messages: seq<Message>

    /** The conversation data as the script starts: no title, no messages. */
    constructor()
      ensures title == [] && messages == []
    {
      title := [];
      messages := [];
    }

    /** updateConversationTitle: the page title without its ` - ChatGPT` suffix, or the default title. */
    method UpdateConversationTitle(pageTitle: string)
      modifies this
      ensures title == ConversationTitle(pageTitle)
      ensures messages == old(messages)
    {
      var t := Trim(ReplaceString(pageTitle, TitleSuffix, ""));
      title := if t == [] then DefaultTitle else t;
    }

    /**
     * processMessageBlock: skips UI controls, collects the initial text and
     * the fragments (an equation only when its key is new), sorts the items
     * by position and appends a message when there is any item.
     */
    method ProcessMessageBlock(b: Block, now: string)
      modifies this
      ensures messages == old(messages) + BlockMessages(b, now)
      ensures title == old(title)
    {
      if b.uiIgnore || IsUIControlText(b.textContent) {
        return;
      }
      var items := CollectItems(b);
      if items != [] {
        messages := messages + [Message(Speaker(b), now, Some(SortByY(items)))];
      }
    }

    /**
     * The loop body of extractCurrentContent for one block: an invalid
     * block, or one whose non-blank trimmed text is the last one processed,
     * is skipped; any other is processed and its text remembered.
     */
    method VisitBlock(b: Block, lastBlockText: string, now: string, ghost kept: seq<Block>, ghost start: seq<Message>)
      returns (last: string, ghost kept': seq<Block>)
      requires messages == start + MessagesOf(kept, now)
      modifies this
      ensures Selection(kept', last) == SelectStep(Selection(kept, lastBlockText), b, IsValidMessageBlock, BlockText)
      ensures messages == start + MessagesOf(kept', now)
      ensures title == old(title)
    {
      last, kept' := lastBlockText, kept;
      if IsValidMessageBlock(b) {
        var text := Trim(b.innerText);
        if !(text != [] && text == lastBlockText) {
          last := text;
          ProcessMessageBlock(b, now);
          MessagesOfNext(kept, b, now);
          kept' := kept + [b];
        }
      }
    }

    /**
     * extractCurrentContent: takes the blocks of the first strategy that
     * finds any, then processes each valid block that does not repeat the
     * text of the block processed before it.
     */
    method ExtractCurrentContent(strategies: seq<seq<Block>>, now: string)
      requires |strategies| == 4
      modifies this
      ensures messages == old(messages) + MessagesOf(SelectBlocks(FirstFound(strategies)), now)
      ensures title == old(title)
    {
      var blocks := ChooseBlocks(strategies);
      ghost var start := messages;
      var lastBlockText: string := [];
      ghost var kept: seq<Block> := [];
      var i := 0;
      while i < |blocks|
        invariant 0 <= i <= |blocks|
        invariant SelectBy(blocks[..i], IsValidMessageBlock, BlockText) == Selection(kept, lastBlockText)
        invariant messages == start + MessagesOf(kept, now)
        invariant title == old(title)
      {
        SelectByNext(blocks, i, IsValidMessageBlock, BlockText);
        lastBlockText, kept := VisitBlock(blocks[i], lastBlockText, now, kept, start);
        i := i + 1;
      }
      assert blocks[..i] == blocks;
    }

    /**
     * getConversationData: clears the messages, updates the title, runs the
     * extraction and, when it found nothing, falls back to the whole page
     * text; returns the title and the messages.
     */
    method GetConversationData(pageTitle: string, strategies: seq<seq<Block>>, bodyText: string, now: string)
      returns (resultTitle: string, result: seq<Message>)
      requires |strategies| == 4
      modifies this
      ensures resultTitle == title == ConversationTitle(pageTitle)
      ensures result == messages
      ensures var found := MessagesOf(SelectBlocks(FirstFound(strategies)), now);
        result == if found == [] then PageFallback(bodyText, now) else found
    {
      messages := [];
      UpdateConversationTitle(pageTitle);
      ExtractCurrentContent(strategies, now);
      if |messages| == 0 {
        var raw := Trim(bodyText);
        if raw != [] {
          messages := messages + [Message(FallbackSpeaker, now, Some([Text(Sanitize(raw), None)]))];
        }
      }
      return title, messages;
    }
  }

  /** The first non-empty list, or the last list when all are empty. */
  function FirstFound<T>(lists: seq<seq<T>>): (r: seq<T>)
    requires |lists| > 0
    ensures exists k :: 0 <= k < |lists| && r == lists[k] && forall j :: 0 <= j < k ==> lists[j] == []
    ensures r == [] <==> forall j :: 0 <= j < |lists| ==> lists[j] == []
  {
    if |lists| == 1 || lists[0] != [] then lists[0]
    else
      var r := FirstFound(lists[1..]);
      assert forall j :: 1 <= j < |lists| ==> lists[j] == lists[1..][j - 1];
      r
  }

  /** The four selector strategies in order; the blocks of the first that finds any. */
  method ChooseBlocks(strategies: seq<seq<Block>>) returns (blocks: seq<Block>)
    requires |strategies| == 4
    ensures blocks == FirstFound(strategies)
  {
    blocks := strategies[0];
    if |blocks| == 0 {
      blocks := strategies[1];
    }
    if |blocks| == 0 {
      blocks := strategies[2];
    }
    if |blocks| == 0 {
      blocks := strategies[3];
    }
  }

  /** The fallback fails to give a message exactly when no block yields one and the page body is blank. */
  lemma FallbackEmptyIff(found: seq<Message>, bodyText: string, now: string)
    ensures (if found == [] then PageFallback(bodyText, now) else found) == []
      <==> found == [] && AllChars(bodyText, IsSpace)
  {
    TrimEmptyIff(bodyText);
  }
}
