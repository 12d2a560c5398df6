# ChatToPdfConvertor, modelled in Dafny

ChatToPdfConvertor is a Chrome extension. It reads a ChatGPT conversation
from the open page and draws it as a PDF. This project models its text
processing and extraction logic in three parts:

- **the popup** (`popup.js`): it cleans the extracted messages before drawing
  them. Messages without items are dropped. Text that looks like an equation
  becomes an equation item. A first pass drops toolbar captions and
  duplicates. A second pass drops captions after code, and text that repeats
  a list or heading given elsewhere. The part also covers heading detection,
  code-block caption stripping, bullet indentation and the page-break rules.
- **the content script** (`content.js`): it picks the message blocks with four
  selector strategies and skips invalid and repeated blocks. It walks each
  block's fragments, with a guard that pushes an equation only when its
  normalized key is new, then sorts the items by position. When nothing is
  found it falls back to the whole page text. This part also covers the
  helpers `sanitizeTextForPDF`, `formatEquation`, `isValidContent`,
  `isUIControl` and `getCodeLanguage`.
- **the page script** (`injected-script.js`): it tries four approaches in order
  to find messages: conversation turns, role elements, generic containers,
  and a transcript parser over the main element's text. Each element's text
  is cleaned (labels, script noise and duplicate lines removed). Its code
  blocks are cut out and interleaved with the surrounding text. The result
  always holds at least one message.

The DOM is abstracted. A block or element is a record of what the queries
would read from it: its text, class attribute, role, position and the
fragments or code texts found inside it, in document order. Each selector
strategy is a list of such records. Strings are sequences of code points.
JavaScript regular expressions are written out as matchers: a generic global
replace `JsText.ReplaceAll`, literal patterns, and token patterns in
`Pattern`.

Where the source changes state, the model does too:
- `ContentExtractor` is a class holding the title and messages.
- The reclassification rewrites an `array` in place.
- The first pass is a loop that threads the seen-sets and the previous item.
- The second pass is an index-aware filter loop.
- The code caption stripping is a `pop`/`shift` loop.
- The duplicate-line removal, the code-block loop, the interleaving, the
  transcript parser and the approach loops are `while`/`for` loops.

Each such method is proved equal to a specification function. The lemmas
state what the source promises about those functions.

Modules:
- `Optional`
- `JsText`: JavaScript string primitives.
- `Pattern`: regex tokens.
- `PageText`: sanitizing, content validity, UI captions, code language, title.
- `Headings`: `isHeaderText`.
- `EquationText`: `normalizeEquation` and `formatEquation`.
- `ListText`: `normalizeContent` and list-item extraction.
- `Cleanup`: `processMessagesForPDF`.
- `Render`: code-line, bullet-level and page-break rules of `renderMessage`.
- `Extraction`: content-script extraction.
- `InjectedScript`: page-script extraction.

Facts about the code that its comments or a quick reading might suggest otherwise:

- The popup's first pass keeps its seen-sets per message: all three
  seen-sets, the equation set among them, are created afresh for each
  message, so the same equation may appear in two messages
  (popup.js:548-551).
- The generic approach makes an element the user's when its index is even; the
  comment above it speaks of odd indexes (injected-script.js:99-102).
  `InjectedScript.GenericSpeaker` follows the code.
- `getConversationData` carries the comment "Always return at least one
  message", but it returns no message when no block yields one and the page
  body is blank (content.js:459-476). `Extraction.FallbackEmptyIff` states
  exactly when that happens.
- After a caption line, the code removes a second line only when it reads
  `copy` or `edit` alone; a second line reading `copy edit` stays
  (popup.js:1250-1256). See Findings.
- The popup does not re-sort items by position. It only sorts by a `sequence`
  field that the extractors never set (popup.js:1140-1146). The position sort
  happens in the content script (content.js:970-972).

## Model

| member | source | states |
|---|---|---|
| `JsText.Trim` | injected-script.js:347 | `trim()` yields text that neither starts nor ends with white space |
| `JsText.TrimSpaces` | injected-script.js:347 | everything `trim()` removes, at either end, is white space |
| `JsText.TrimOfTrimmed` | injected-script.js:358 | trimming text that is already trimmed changes nothing |
| `JsText.TrimEmptyIff` | injected-script.js:348 | a line trims to the empty string exactly when it is all white space |
| `JsText.TrimLower` | popup.js:404 | trimming and lower-casing commute, so the caption key does not depend on their order |
| `JsText.Lower` | popup.js:404 | `toLowerCase()` keeps the length, leaves no upper-case ASCII letter, turns each upper-case letter into its lower-case partner at the same index and keeps every other character |
| `JsText.LowerIdempotent` | popup.js:404 | lower-casing an already lower-cased text changes nothing |
| `JsText.TrimEnd` | popup.js:1227 | `replace(/\s+$/, '')` yields a prefix of the line that does not end in white space |
| `JsText.IndexOf` | injected-script.js:263 | a found index is a real occurrence of the pattern |
| `JsText.IndexOfNone` | injected-script.js:263 | nothing is found exactly when the text does not contain the pattern |
| `JsText.IndexOfFirst` | injected-script.js:263 | the occurrence found is the first: no earlier one ends before it |
| `JsText.ReplaceString` | injected-script.js:263 | a string replace changes nothing when the pattern does not occur; when it does, the length changes by the replacement's length minus the pattern's |
| `JsText.IndexOfIsFirst` | injected-script.js:263 | an occurrence with no earlier occurrence is the one `indexOf` finds |
| `JsText.ReplaceStringFirst` | injected-script.js:263 | a string replace puts the replacement exactly where the first occurrence was and keeps the text on both sides |
| `JsText.EndingIsFirst` | content.js:171 | when a pattern cannot overlap itself and a text has it only at its end, no occurrence ends before that one |
| `JsText.ReplaceTrailing` | content.js:171 | replacing a pattern that cannot overlap itself and occurs only at the end of the text replaces that ending and keeps the text before it |
| `JsText.ReplaceRuns` | injected-script.js:358 | `replace(/\s+/g, ' ')` produces only characters of the input outside the class, or of the replacement |
| `JsText.ReplaceRunsNoAdjacent` | injected-script.js:358 | after replacing runs by one class character, no two class characters are adjacent |
| `JsText.ReplaceRunsFixed` | content.js:355-357 | text with single spaces for white space is left alone by the collapse, which makes it idempotent |
| `JsText.ReplaceRunsDelete` | popup.js:765 | `replace(/\s+/g, '')` deletes exactly the white-space characters |
| `JsText.SplitOn` | injected-script.js:342 | `split` on a string always yields at least one piece |
| `JsText.JoinSplit` | injected-script.js:342 | joining the pieces of a split with the same separator gives back the text |
| `JsText.SplitPiecesFree` | injected-script.js:270 | no piece of a split contains the separator |
| `JsText.SplitRuns` | popup.js:420 | `split(/\s+/)` yields at least one piece |
| `JsText.ReplaceAllKeeps` | content.js:353-357 | a global replace keeps a character property shared by its input and every replacement text |
| `Pattern.MatchLen` | injected-script.js:131-132 | an anchored match never reaches past the end of the text |
| `Pattern.MatchLit` | injected-script.js:131 | a literal at the start of the text matches its own length, then matching goes on after it |
| `PageText.Sanitize` | content.js:346-360 | empty for empty or script-like text; otherwise printable ASCII only, trimmed, with no two white-space characters adjacent and no script marker |
| `PageText.SanitizeKeeps` | content.js:346-360 | non-empty text that is already printable ASCII, trimmed, single-spaced and free of script markers is returned unchanged, so the sanitizer keeps the printable text it was given |
| `PageText.NoMarkerCreated` | content.js:348-357 | the replaces and the trim cannot create `window.`, `document.` or `function(` |
| `PageText.SanitizeIdempotent` | content.js:346-360 | sanitizing twice gives the same text as sanitizing once |
| `PageText.ValidContentIff` | content.js:420-439 | content is valid exactly when it is not all white space, contains no noise pattern and is not only digits, white space and dots |
| `PageText.UIControlTrim` | popup.js:402-410 | surrounding white space does not change whether text is a toolbar caption |
| `PageText.UIControlLower` | popup.js:402-410 | letter case does not change whether text is a toolbar caption |
| `PageText.FirstLanguageClass` | content.js:295-300 | the index found is that of the first class starting with `language-` |
| `PageText.GetCodeLanguage` | content.js:292-302 | the rest of the first `language-` class; empty for no element or no such class |
| `PageText.ConversationTitle` | content.js:170-173 | the title is never empty and is trimmed; a page title without ` - ChatGPT` is only trimmed; a page title that ends in ` - ChatGPT`, with no earlier ` - ChatGPT`, loses that suffix and is trimmed, or gives the default title when the rest is blank; a blank page title gives the default title |
| `PageText.SuffixRemoved` | content.js:171 | replacing ` - ChatGPT` in a title that has it only at its end leaves exactly the part before it |
| `PageText.TitleSuffixStripped` | content.js:170-173 | a page title ending in ` - ChatGPT`, with no other ` - ChatGPT`, becomes the trimmed rest, or the default title when the rest is blank |
| `PageText.SuffixNoOverlap` | content.js:171 | ` - ChatGPT` cannot overlap itself |
| `Headings.HeaderTrim` | popup.js:1915-1917 | surrounding white space does not change whether text is a heading |
| `Headings.ColonLineIsHeader` | popup.js:1992-1994 | a trimmed line under 60 characters that ends in `:` and starts with neither `•` nor `-` is a heading |
| `Headings.VocabularyIsHeader` | popup.js:1997-2001 | a trimmed line equal to a stand-alone heading, with or without a colon, is a heading |
| `EquationText.NormalizeEquation` | popup.js:762-772 | the key is empty for empty input and holds no white space, no colon and no upper-case letter |
| `EquationText.Squeezed` | popup.js:764-766 | with white space removed and `=`/`:` runs made one `=`, no white space or colon is left |
| `EquationText.CanonicalForms` | popup.js:767-770 | the canonical replacements bring in no white space and no colon |
| `EquationText.KeyIgnoresSpace` | popup.js:762-772 | equations that differ only in white space share one key |
| `EquationText.StripLatex` | content.js:408-409 | after the command and brace removal no brace is left |
| `EquationText.FinalCleanup` | content.js:410-415 | the result stays brace-free, is trimmed, and has no two adjacent white-space characters |
| `EquationText.FormatEquation` | content.js:363-418 | empty for empty input; otherwise brace-free, trimmed, with no two adjacent white-space characters |
| `EquationText.RepeatedLettersCollapsed` | content.js:366-367 | after the first rewrite no run of three identical letters is left |
| `EquationText.LettersKept` | content.js:366-370 | trimmed text with no letter repeated three times in a row passes the repeated-letter rewrite and the trim unchanged |
| `EquationText.FractionsKeep` | content.js:372-375 | text without a backslash passes both fraction rewrites unchanged |
| `EquationText.FracBracesWhole` | content.js:374 | `\frac{a}{b}` with non-empty, brace-free `a` and `b` is matched as a whole and replaced by `a/b` |
| `EquationText.FracRewritten` | content.js:372-375 | the fraction rewrites turn `\frac{a}{b}` into `a/b` when `a` and `b` are already in display form |
| `EquationText.OperatorSpacingKeeps` | content.js:377-384 | text without `+`, `-` or `*` passes the six operator rewrites unchanged |
| `EquationText.OperatorSpacingOne` | content.js:377-384 | `x+y`, `x-y` and `x*y` between alphanumerics become `x + y`, `x - y` and `x × y`; the rewrite on the right of the operator then finds nothing left to change |
| `EquationText.ReplaceLiteralsKeeps` | content.js:386-404 | a table of macros that all begin with a backslash leaves backslash-free text unchanged |
| `EquationText.StripLatexKeeps` | content.js:406-409 | text without a backslash or brace passes the command and brace removal unchanged |
| `EquationText.FinalCleanupKeeps` | content.js:410-415 | trimmed, single-spaced text without a backslash or brace passes the `\left`/`\right` removal, the white-space collapse and the trim unchanged |
| `EquationText.AfterSpacingKeeps` | content.js:386-415 | the stages after the operator spacing give trimmed, single-spaced, backslash- and brace-free text back unchanged |
| `EquationText.AfterFractionsKeeps` | content.js:377-415 | the stages after the fractions give trimmed, single-spaced text free of backslashes, braces and operators back unchanged |
| `EquationText.FormatEquationKeeps` | content.js:363-418 | equation text already in display form (non-empty, trimmed, single-spaced, no letter three times in a row, no backslash, brace, `+`, `-`, `*` or white space other than a space) is returned unchanged |
| `EquationText.FracFormatted` | content.js:363-418 | `\frac{a}{b}` is formatted as `a/b` for any two texts `a`, `b` already in display form |
| `EquationText.OperatorFormatted` | content.js:363-418 | `x+y`, `x-y` and `x*y` with alphanumeric `x` and `y` are formatted as `x + y`, `x - y` and `x × y` |
| `ListText.StripPrefix` | popup.js:478 | an anchored replace removes a prefix: the result is a suffix of the input |
| `ListText.DropTrailingColon` | popup.js:480 | the result is a prefix of the input, and differs from it exactly when the right-trimmed text ends in `:` |
| `ListText.NormalizeContent` | popup.js:474-483 | the key is empty for empty input and holds only key characters: no bullet mark, no white space but the plain space, no upper-case letter |
| `ListText.BulletMarksRemoved` | popup.js:477 | no bullet mark survives the global bullet replace |
| `ListText.LineEnd` | popup.js:489 | the first line terminator at or after a position, or the end of the text |
| `ListText.MatchAt` | popup.js:489 | a list-item match at a line start yields a non-empty group after the mark |
| `ListText.ItemsFromOccur` | popup.js:486-501 | every item found by the global match is trimmed, lies on one line, and occurs in the text; an item may be empty when the mark is followed only by white space |
| `ListText.ExtractedItemsOccur` | popup.js:486-501 | every extracted bullet or numbered item is trimmed, lies on one line, and occurs in the text |
| `Cleanup.Reclassify` | popup.js:445-469 | only text items change; a changed item is the equation of its trimmed content at the same position, and that content is equation-like |
| `Cleanup.ReclassifyInPlace` | popup.js:445-469 | the array afterwards holds the reclassified items of the array before |
| `Cleanup.CodeKey` | popup.js:618 | a code key has at most 50 characters |
| `Cleanup.FirstPassLoop` | popup.js:559-651 | the `forEach` loop with its seen-sets and running previous item computes the first pass |
| `Cleanup.VisitItem` | popup.js:559-651 | the callback on one item is one step of the first pass |
| `Cleanup.VisitText` | popup.js:564-606 | the text branch of the callback is the text step of the first pass |
| `Cleanup.Without` | popup.js:693 | the filtered list holds only elements of the list other than the one filtered out |
| `Cleanup.SecondPassFlags` | popup.js:667-733 | one verdict per item of the first pass's output |
| `Cleanup.SecondPassKeepsTables` | popup.js:669-672 | the second pass keeps every table |
| `Cleanup.SecondPassDropsCaptions` | popup.js:675-678 | the second pass drops every toolbar caption |
| `Cleanup.Filter` | popup.js:667 | `filter` with an index-aware callback returns the accepted items, in order |
| `Cleanup.SecondPassLoop` | popup.js:667-733 | the filter loop computes the second pass |
| `Cleanup.CleanMessageItems` | popup.js:434-757 | the in-place rewrite and both passes compute the cleaned items of one message |
| `Cleanup.ProcessMessagesForPDF` | popup.js:353-759 | the messages with items, each with its items cleaned |
| `Cleanup.FirstPassSubseq` | popup.js:559-651 | the first pass keeps some of its input, in order |
| `Cleanup.FirstPassKeysSeen` | popup.js:583-628 | every kept item's key is in the matching seen-set |
| `Cleanup.FirstPassDistinct` | popup.js:583-628 | no two kept texts share a normalized key, no two equations share an equation key, and no two code items share a code key |
| `Cleanup.FirstPassNoCaption` | popup.js:561-571 | no empty item and no toolbar caption survives the first pass |
| `Cleanup.Tables` | popup.js:629-639 | the tables of a sequence are tables taken from it |
| `Cleanup.ReclassifyTables` | popup.js:445-469 | reclassification leaves the tables as they were |
| `Cleanup.FirstPassTables` | popup.js:629-639 | the first pass keeps every table, in order |
| `Cleanup.SecondPassSubseq` | popup.js:667-733 | the second pass keeps some of its input, in order |
| `Cleanup.CleanItemsSubseq` | popup.js:434-757 | a cleaned message's items are its reclassified items with some left out, in order |
| `Cleanup.CleanItemsDistinct` | popup.js:583-628 | no two items of a cleaned message share a key |
| `Cleanup.CleanItemsPresentable` | popup.js:561-571 | no item of a cleaned message is empty or a toolbar caption |
| `Cleanup.CleanItemsFromInput` | popup.js:445-469 | every cleaned item is an input item, reclassified; nothing is invented |
| `Cleanup.CleanItemsTables` | popup.js:669-672 | cleaning keeps every table of the message, in order |
| `Cleanup.Keepers` | popup.js:377-379 | only messages with a non-empty item array are kept, each one taken from the input |
| `Cleanup.KeepersComplete` | popup.js:377-379 | every input message with a non-empty item array is kept |
| `Cleanup.ProcessMessagesKeeps` | popup.js:434-757 | one output message per kept message, in order, with every field but the items unchanged, even when cleaning empties its items |
| `Render.CodeLines` | popup.js:1226-1228 | at least one line; no line holds a line feed or ends in white space |
| `Render.TrimEndFree` | popup.js:1227 | a line without its trailing white space |
| `Render.DropTrailingEmpty` | popup.js:1231-1233 | the lines are a prefix with no empty last line; every line dropped is empty |
| `Render.CodeBlockLines` | popup.js:1226-1257 | the `pop`/`shift` loop computes the drawn lines of a code item |
| `Render.StripCaptionLines` | popup.js:1237-1257 | the two `shift` calls drop a caption first line, then a button line after it |
| `Render.StripLeadingBounds` | popup.js:1237-1257 | at most two leading lines are dropped: the first only when it is a caption, the next only when it is a button |
| `Render.RenderedLinesClean` | popup.js:1226-1257 | the drawn lines never end with an empty line and carry no trailing white space |
| `Render.StripLeadingBoth` | popup.js:1240-1256 | a caption line followed by a button line drops both |
| `Render.StripLeadingFirstOnly` | popup.js:1240-1256 | a caption line followed by a line that is not a button drops only the caption |
| `Render.CopyEditCaption` | popup.js:1242 | `copy edit` is a first-line caption, but not a second-line one as written |
| `Render.CopyEditSecondLineKept` | popup.js:1250-1256 | a `java` caption with `copy edit` under it: the written check draws `copy edit` as code; the fixed check drops it |
| `Render.FixedDropsCaptionAndButton` | popup.js:1250-1256 | with the fixed check, a caption line and any button line after it, `copy edit` included, are both dropped |
| `Render.FixedExtendsWritten` | popup.js:1250-1256 | the fixed check drops whatever the written one drops |
| `Render.SpaceAfterMark` | popup.js:1187 | the white-space run after the bullet mark lies inside the content |
| `Render.NestedLevel` | popup.js:1188-1190 | the level from the captured group is at most 3, and 0 for an empty group |
| `Render.BulletLevelAlwaysOne` | popup.js:1183-1193 | as written, every bullet is drawn at level 1 whatever its nesting |
| `Render.BulletLevelFixed` | popup.js:1187-1193 | the intended level of a bullet is between 1 and 3 |
| `Render.FixedLevelNesting` | popup.js:1187-1193 | with the intended level, more white space after the mark never lowers the level |
| `Render.NestedBulletFlattened` | popup.js:1187-1193 | `•     nested` is meant for level 2 but drawn at level 1 |
| `Render.MessageStartY` | popup.js:311-315 | a message starts where the last ended, or at the top margin of a new page once past the bottom margin |
| `Render.CodeBlockStartY` | popup.js:1279-1283 | a code block stays put exactly when it fits above the bottom margin, and starts at the top margin of a new page otherwise; a block no taller than a page then ends above the bottom margin |
| `Extraction.BlockEquationsDistinct` | content.js:571-962 | within one block no two equation items share a normalized key |
| `Extraction.BlockEquationKeys` | content.js:571-962 | the equation keys of a block's items are exactly the keys of the equations its walk met |
| `Extraction.NonEmpty` | content.js:937-939 | `filter(h => h)` keeps exactly the non-empty strings and invents none |
| `Extraction.TableHeadersExact` | content.js:937-939 | a table's headers are exactly the header cells whose trimmed, sanitized text is non-empty |
| `Extraction.TableItemClean` | content.js:936-944 | a table item has only non-empty, already sanitized headers, and one sanitized cell for every body cell of every row |
| `Extraction.BlockOthers` | content.js:502-968 | equations aside, a block's items are its initial text, then every other fragment's item, in order |
| `Extraction.WalkAllInv` | content.js:605-962 | the walk's seen-set holds exactly the keys of the equations pushed, and those are distinct |
| `Extraction.WalkAllSeen` | content.js:605-962 | the keys seen after a walk are those seen before plus those of its equation fragments |
| `Extraction.WalkAllOthers` | content.js:632-968 | the walk pushes the items of the non-equation fragments, in order |
| `Extraction.PushFragment` | content.js:683-691 | one fragment is one step of the walk: an equation is pushed, and its key recorded, only when the key is new |
| `Extraction.CollectItems` | content.js:502-968 | the loop over the fragments computes a block's items |
| `Extraction.InsertPermutes` | content.js:972 | inserting an item adds it and removes nothing |
| `Extraction.InsertSorted` | content.js:972 | inserting into a sorted list keeps it sorted |
| `Extraction.InsertWithKey` | content.js:972 | an inserted item goes after the items with the same position |
| `Extraction.SortBySorted` | content.js:970-972 | the sort orders the items by position (0 when missing) and is a permutation of them |
| `Extraction.SortByStable` | content.js:970-972 | items with the same position keep their order |
| `Extraction.SelectionLastValid` | content.js:205-214 | the remembered text is that of the last valid block, processed or not |
| `Extraction.SelectionLastKept` | content.js:205-214 | the remembered text is that of the last processed block |
| `Extraction.SelectByFresh` | content.js:205-214 | the loop processes exactly the valid blocks whose text is blank or differs from that of the valid block before them |
| `Extraction.SelectByKept` | content.js:205-214 | every processed block is valid, and none repeats the non-blank text of the block processed before it |
| `Extraction.SelectBySubseq` | content.js:205-214 | the processed blocks are some of the blocks, in order |
| `Extraction.SelectedBlocks` | content.js:205-236 | the selected blocks are valid message blocks, kept in order, exactly the fresh ones |
| `Extraction.MessagesOfShape` | content.js:970-977 | every message added has a block speaker, a non-empty item list and items sorted by position |
| `Extraction.ContentExtractor.constructor` | content.js:104-107 | the conversation data starts with no title and no messages |
| `Extraction.ContentExtractor.UpdateConversationTitle` | content.js:170-173 | the title becomes the derived conversation title; the messages stay |
| `Extraction.ContentExtractor.ProcessMessageBlock` | content.js:480-977 | the messages grow by the block's message, if it yields one; the title stays |
| `Extraction.ContentExtractor.VisitBlock` | content.js:207-214 | one round of the selection loop: an invalid or repeated block changes nothing; another is processed and its text remembered |
| `Extraction.ContentExtractor.ExtractCurrentContent` | content.js:178-215 | the messages grow by those of the selected blocks of the first strategy that finds any |
| `Extraction.ContentExtractor.GetConversationData` | content.js:442-476 | returns the derived title and the messages of the selected blocks, or the whole-page fallback when there are none |
| `Extraction.FirstFound` | content.js:183-204 | the first non-empty strategy's list, every earlier one being empty; empty only when all are |
| `Extraction.ChooseBlocks` | content.js:183-204 | the four strategies tried in order give the first that finds blocks |
| `Extraction.FallbackEmptyIff` | content.js:459-476 | the data has no message exactly when no block yields one and the page body is blank |
| `InjectedScript.LazyHit` | injected-script.js:337-339 | a lazy match is longer than its opening, ends inside the text and is replaced by nothing |
| `InjectedScript.CleanedText` | injected-script.js:326-361 | the cleaned text is trimmed, has no line break and no two adjacent white-space characters; empty input gives empty text |
| `InjectedScript.RemoveDuplicateLines` | injected-script.js:342-352 | the loop with its seen-set keeps the first occurrence of each trimmed non-blank line |
| `InjectedScript.CleanupMessageText` | injected-script.js:326-361 | computes the cleaned text, which is trimmed with single spaces and no line break |
| `InjectedScript.UniqueLinesDistinct` | injected-script.js:346-352 | no line is kept twice |
| `InjectedScript.UniqueLinesSound` | injected-script.js:346-352 | every kept line is a non-blank input line, trimmed |
| `InjectedScript.UniqueLinesComplete` | injected-script.js:346-352 | every non-blank input line is kept, trimmed |
| `InjectedScript.UniqueLinesPrefix` | injected-script.js:346-352 | lines kept from a prefix of the input are a prefix of those kept from all of it: a line stays where it first occurs |
| `InjectedScript.UniqueLinesOneMarker` | injected-script.js:341-352 | as written, at most one code-block marker line survives the duplicate removal |
| `InjectedScript.KeepingMarkersCount` | injected-script.js:263-270 | the corrected removal keeps one marker per marker line of the input |
| `InjectedScript.MarkerLinesLost` | injected-script.js:263-352 | with two or more marker lines, the written removal loses markers and the corrected one loses none |
| `InjectedScript.DetectCodeLanguage` | injected-script.js:364-376 | `plaintext` exactly for empty code; otherwise one of python, javascript, java, cpp, go or code |
| `InjectedScript.DetectByRules` | injected-script.js:364-376 | the chain of tests is the rule table python, javascript, java, cpp, go, read in order, with `code` as the default |
| `InjectedScript.CollectCodeBlocks` | injected-script.js:250-264 | the loop yields the code items of the kept blocks and the text with each replaced by a marker |
| `InjectedScript.CombineItems` | injected-script.js:273-295 | the loop gives the first text piece, then each code item followed by the piece after it |
| `InjectedScript.TextPiece` | injected-script.js:289-294 | a piece gives its trimmed text item when it exists and is not blank |
| `InjectedScript.ProcessMessageContent` | injected-script.js:227-323 | none for a missing element or no items; otherwise a message with the given speaker and a non-empty item list |
| `InjectedScript.BuildItems` | injected-script.js:231-313 | the element's items, with or without code blocks |
| `InjectedScript.BuildCodeItems` | injected-script.js:244-297 | the items of an element with code blocks |
| `InjectedScript.CodeItemsKept` | injected-script.js:250-260 | every code item comes from a kept block (5 characters or more, no script prefix) and every kept block gives its item |
| `InjectedScript.PieceTextShape` | injected-script.js:276-294 | a piece gives at most one item, a trimmed non-empty text |
| `InjectedScript.InterleaveCodes` | injected-script.js:284-295 | the interleaved items hold exactly the code items, in order |
| `InjectedScript.InterleaveShape` | injected-script.js:273-295 | every interleaved item is a code item or a trimmed non-empty text, and no text follows a text |
| `InjectedScript.ItemsWithCodeShape` | injected-script.js:244-297 | with code blocks, the code items are the kept blocks in order, texts are non-blank, and no two texts are adjacent |
| `InjectedScript.PlainItemsShape` | injected-script.js:298-313 | without code blocks, at most one text item, free of script residue |
| `InjectedScript.ContentItemsShape` | injected-script.js:227-316 | items are kept code blocks or non-blank texts, code in document order, never two texts in a row; without code, at most one residue-free text |
| `InjectedScript.SpeakerMark` | injected-script.js:131-132 | a speaker mark lies within the line and names the user or ChatGPT (`Assistant` maps to ChatGPT) |
| `InjectedScript.ParseTranscript` | injected-script.js:122-182 | the loop over the non-blank lines computes the transcript's messages |
| `InjectedScript.NextLine` | injected-script.js:127-170 | one round of the loop: a mark line saves the current message and starts another; another line joins the current speaker's |
| `InjectedScript.ReadLinesCount` | injected-script.js:127-182 | every message so far, and the current one, was started by a mark line |
| `InjectedScript.TranscriptCount` | injected-script.js:122-182 | exactly one message per non-blank line that starts with a speaker mark |
| `InjectedScript.ReadLinesAppend` | injected-script.js:127-170 | reading two runs of lines is reading the second from where the first left off |
| `InjectedScript.ReadLinesUnmarked` | injected-script.js:166-169 | lines before the first mark change nothing |
| `InjectedScript.LeadingLinesDropped` | injected-script.js:166-169 | lines before the first mark are dropped |
| `InjectedScript.ReadLinesShape` | injected-script.js:136-181 | every message read so far has the user or ChatGPT as speaker, the time stamp `now` and exactly one item, a text |
| `InjectedScript.TranscriptShape` | injected-script.js:136-181 | every message of the transcript has the user or ChatGPT as speaker, the time stamp `now` and exactly one item, a text |
| `InjectedScript.ProcessCandidates` | injected-script.js:47-107 | each approach's loop keeps the messages of the candidates that yield one, in order |
| `InjectedScript.ChatContent` | injected-script.js:31-223 | the reported conversation always holds at least one message |
| `InjectedScript.ExtractChatContent` | injected-script.js:31-223 | computes the reported conversation, which holds at least one message |
| `InjectedScript.MessagesShape` | injected-script.js:47-107 | every message of an approach has items and a chat speaker |
| `InjectedScript.TurnCandidatesSpeakers` | injected-script.js:57-65 | turn parts are labelled User or ChatGPT |
| `InjectedScript.FoundMessagesShape` | injected-script.js:41-185 | every message found has items and is spoken by the user or ChatGPT |
| `InjectedScript.ChatContentShape` | injected-script.js:189-222 | every message has items; a message is from System exactly when reading failed or no approach found one |
| `InjectedScript.GenericSpeakerParity` | injected-script.js:97-106 | each generic element becomes one candidate at its own index; it is the user's exactly when it has the dark-background class or an even index, and the assistant's otherwise |
| `InjectedScript.GenericAlternates` | injected-script.js:97-106 | without the dark-background class, neighbouring generic elements alternate speakers |

## Left out

- The live DOM is not modelled: queries, `innerText` versus `textContent` rendering, `getBoundingClientRect`, and the `processed` and `ui-control-ignore` class markers. Blocks and elements are records of what the queries read, in document order.
- How `isUser` is found from the DOM (content.js:490-497) is not modelled. It is a field of the block.
- The extension's messaging is not modelled: `chrome.tabs`, `chrome.scripting`, `chrome.storage`, `chrome.runtime` and `window.postMessage`. This is cross-context I/O.
- jsPDF drawing, KaTeX rendering, image loading and the PDF download are not modelled. They are calls into libraries and the browser. Only the code-line, bullet-level and page-break rules around them are kept.
- Text widths, wrapping (`splitTextToSize`) and line heights are not modelled. They come from font metrics in floating point. Positions are integers, and wrapped line counts and block heights are parameters.
- The horizontal indent, the wrap width and the vertical advance of a drawn text or list line (popup.js:1199-1215) are layout geometry and are not modelled; only the page-break rules are.
- The clock is a parameter, `now`, that every message timestamp takes. An exception in `extractChatContent` is a parameter, `error`.
- The try/catch blocks of `processMessageBlock` and of the segment loop are not modelled. The model has no exceptions there.
- Strings are sequences of code points. The `length < 5` test on code counts code points, not UTF-16 units. `toLowerCase` and `/i` are modelled on ASCII letters only.
- `el.hasAttribute('[data-message-author-role="user"]')` (injected-script.js:101) names an attribute by a selector string. No element has such an attribute, so the test is modelled as false.
- Whether an element carries the dark-background class is a field of the element; the class-list test itself is not modelled.
- `Headings.ColonLineIsHeader` and `Headings.VocabularyIsHeader`: they state when a line is a heading. The other heading patterns are defined but no lemma is stated about them.
- `Cleanup.ReclassifyInPlace`: popup.js:464 writes the reclassified item into the caller's own `message.items`, so the caller's message object changes too. The model rewrites a fresh array and does not capture that aliasing; the caller (popup.js:190-199) does not read `rawMessages` again.
- `Extraction.Fragment`: whether a piece of a block is an equation or text is an input, the constructor of each fragment. The equation tests that decide it in content.js (`hasEquationPatterns` and the per-line scan at 576-616, paragraphs at 731-752, list items at 786-807, containers at 826-838, and 873-879 and 897-905) are not modelled. `Extraction.PushFragment` and its caller `Extraction.CollectItems` take each fragment's kind as given.
- Logging (`console.log`, `debugLog`) and the export-count stubs are not modelled.

## Findings

| source | as written | input that shows it | evidently intended | confidence | as-written member | corrected member |
|---|---|---|---|---|---|---|
| popup.js:1187-1193 | `/^[•*]\s+(\s*)/` lets the greedy `\s+` take the whole white-space run, so the group is always empty and every bullet gets level 1 | the line `•     nested` (five spaces after the mark) | nested bullets indented by the extra white space: level 2 here | not executed | `Render.NestedBulletFlattened` | `Render.FixedLevelNesting` |
| popup.js:1250-1256 | the second-line test `/^(copy\|edit)$/` does not accept `copy edit`, although the first-line test does | code lines `java`, `copy edit`, `System.out.println(1);` | the `copy edit` button line is dropped with the caption | not executed | `Render.CopyEditSecondLineKept` | `Render.FixedDropsCaptionAndButton` |
| injected-script.js:341-352 | code blocks are replaced by `[CODE_BLOCK]` before the duplicate-line removal, which keeps only one marker line, so a later split yields too few pieces and the text after a later block moves to an earlier one | an element whose text is `a`, `first code`, `b`, `second code`, `c` on separate lines, with both codes kept | every code block keeps its own marker, so each code item is followed by its own text | not executed | `InjectedScript.MarkerLinesLost` | `InjectedScript.KeepingMarkersCount` |
