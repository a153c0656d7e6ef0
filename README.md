# Two template rules of eslint-plugin-vue, modelled in Dafny

This project models two lint rules of eslint-plugin-vue. Both rules read the
token stream that vue-eslint-parser builds for a `.vue` file.

- **component-tags-order** (`ComponentTagsOrder`, imperative) finds the
  top-level opening tags of a single-file component. A forward level counter
  scans the tokens before `<template>` and a backward level counter scans the
  tokens from `</template>` on. The rule then walks those tags with a running
  cursor (`preTarget`, `preTargetIndex`). It reports every ranked tag whose
  rank in the configured `order` is below the cursor's rank. The cursor rises
  to each ranked tag that is not reported. Unranked tags are skipped. The rule
  offers no fix.
- **html-content-newline** (`HtmlContentNewline`, pure) checks each element
  of the template. The policy is `singleline` when the start tag begins and
  ends on one line and so does the end tag, and `multiline` otherwise. Under `always` the rule requires a line break
  after the start tag and before the end tag. Under `never` it forbids them.
  Each side with a violation gets a report with a message pair and a fix:
  `always` inserts `"\n"`, `never` removes a range.
- `Tokens` holds the token record both rules read.

The scans, the cursor loop and `Program` are methods with loop invariants.
Each is proved equal to a ghost specification: `TopIndicesBelow` and
`TopIndicesFrom` over a level function `Depth`, and `ExpectedReports` over
the running maximum `MaxRank`. Lemmas then characterise those
specifications. The newline rule is a set of functions over the token
sequence, with lemmas about the edits its fixes make to the source text.

The code and its test file disagree in three places. The model follows the
code in all three.

- The `never` fixes remove `[tag end + 1, next token start)`
  (lib/rules/html-content-newline.js:103 and :121). So the first character
  after the tag or the content survives. The rule's own tests expect it to
  be removed. `NeverFixKeepsLineBreak` states what the code produces for a
  reduced form of the input of tests/lib/rules/html-content-newline.js:389-404
  (the `div` alone, without the `<template>` around it, indented by two
  spaces).
- The test messages read `... after closing bracket of the "div" element, ...`.
  The code's message templates have no element name, and the model
  (`expected`/`actual` phrases) follows the code.
- The tests at tests/lib/rules/html-content-newline.js:120-132 and :406-442
  pass a `hasChildElements` option and expect elements with child elements
  to follow it. The code has no such option, and its schema rejects unknown
  keys (lib/rules/html-content-newline.js:61). The model has no such option
  either.

## Model

| member | source | states |
|---|---|---|
| ComponentTagsOrder.SelectOrder | lib/rules/component-tags-order.js:8-19 | without an `order` option the order is `script, template, style`; a supplied `order` replaces it entirely, even when empty |
| ComponentTagsOrder.DepthAppend | lib/rules/component-tags-order.js:30-39 | the level counter is additive: the level after `a + b` is the level after `a` plus the level after `b` |
| ComponentTagsOrder.TopIndicesBelow | lib/rules/component-tags-order.js:29-41 | the positions the forward scan collects are below the scanned length and in strictly increasing source order |
| ComponentTagsOrder.TopIndicesBelowMembers | lib/rules/component-tags-order.js:31-39 | a token before `n` is collected exactly when it is a tag-open and the level before it is 0 |
| ComponentTagsOrder.ScanForward | lib/rules/component-tags-order.js:29-41 | the loop returns exactly the tag-open tokens at level 0, in source order |
| ComponentTagsOrder.TopIndicesFrom | lib/rules/component-tags-order.js:42-54 | the positions the backward scan collects lie in the scanned suffix, in strictly increasing source order |
| ComponentTagsOrder.TopIndicesFromMembers | lib/rules/component-tags-order.js:44-53 | a token is collected by the backward scan exactly when it is a tag-open and the level of the suffix starting at it is 0 |
| ComponentTagsOrder.Reverse | lib/rules/component-tags-order.js:55 | reversal keeps the length and puts element `k` at `n - 1 - k` |
| ComponentTagsOrder.ScanBackward | lib/rules/component-tags-order.js:42-55 | scanning from the end and reversing the pushed list yields the backward-collected tags in source order |
| ComponentTagsOrder.TopLevelIndices | lib/rules/component-tags-order.js:21-55 | the top-level positions lie in the body's tokens, in strictly increasing order |
| ComponentTagsOrder.TopLevelIndicesMembers | lib/rules/component-tags-order.js:21-55 | a position is top-level exactly when it is a level-0 tag-open before `<template`, or `<template` itself, or a level-0 tag-open (counted backwards) from `</template>` on |
| ComponentTagsOrder.GetTopLevelHTMLTagOpenList | lib/rules/component-tags-order.js:21-56 | the list is the top-level tags in source order, with the template opener after the tags before it |
| ComponentTagsOrder.IndexOf | lib/rules/component-tags-order.js:86 | `-1` exactly for a name not in the order; otherwise the first position holding the name |
| ComponentTagsOrder.MaxRank | lib/rules/component-tags-order.js:83-98 | an upper bound of the ranks of the tags, never below `-1` |
| ComponentTagsOrder.MaxRankAttained | lib/rules/component-tags-order.js:83-98 | `MaxRank` is the rank of some tag, and it is `-1` exactly when no tag is ranked, so it is the largest rank |
| ComponentTagsOrder.LastAtMax | lib/rules/component-tags-order.js:90-97 | the tag the cursor holds has the maximal rank and every later tag ranks strictly below it |
| ComponentTagsOrder.ReportedIndices | lib/rules/component-tags-order.js:85-98 | the reported positions are positions of the tag list, in increasing order |
| ComponentTagsOrder.ReportedIndicesMembers | lib/rules/component-tags-order.js:85-98 | a tag is reported exactly when it is ranked below the highest rank seen before it |
| ComponentTagsOrder.ExpectedReportsMatch | lib/rules/component-tags-order.js:90-97 | one report per reported position, in order, naming that tag; its `previous` is one of the tags before it, has the highest rank among them, and ranks strictly above the reported tag |
| ComponentTagsOrder.ReportedIff | lib/rules/component-tags-order.js:86-97 | a tag is reported if and only if it is ranked and some earlier tag has a strictly higher rank |
| ComponentTagsOrder.NoReportsIffOrdered | lib/rules/component-tags-order.js:83-98 | there are no reports if and only if the ranked tags appear in non-decreasing rank order |
| ComponentTagsOrder.ReportOutOfOrder | lib/rules/component-tags-order.js:83-98 | the cursor loop produces exactly the running-maximum reports |
| ComponentTagsOrder.CheckProgram | lib/rules/component-tags-order.js:72-99 | no report for an invalid end of file or a missing template; otherwise the comparator's reports over the top-level tags under the selected order |
| ComponentTagsOrder.TemplateBeforeScriptReported | tests/lib/rules/component-tags-order.js:37-40 | `template, script, style` under the default order gives one report, `<script> should go before <template>.` |
| ComponentTagsOrder.ScriptTemplateStyleAccepted | tests/lib/rules/component-tags-order.js:24 | `script, template, style` under the default order gives no report |
| ComponentTagsOrder.TemplateFirstFromTokens | tests/lib/rules/component-tags-order.js:38-39 | from the twelve tokens of `<template></template><script></script><style></style>`, the top-level tags are the three openers and the one report is `<script>` before `<template>` |
| HtmlContentNewline.ParseOptions | lib/rules/html-content-newline.js:17-31 | each supplied key overrides its default; the defaults are `singleline: ignore`, `multiline: always`, `ignoreNames: [pre, textarea]` |
| HtmlContentNewline.DetectType | lib/rules/html-content-newline.js:23-29 | the `singleline` policy when both tags start and end on one line, the `multiline` policy otherwise |
| HtmlContentNewline.BreakPhrase | lib/rules/html-content-newline.js:33-35 | `line break` for a break, `no line breaks` otherwise |
| HtmlContentNewline.TokenAfter | lib/rules/html-content-newline.js:83-84 | the first token after the position that is not whitespace (comments count), or none if all remaining are whitespace |
| HtmlContentNewline.TokenBefore | lib/rules/html-content-newline.js:85 | the last token before the position that is not whitespace, or none if all earlier ones are whitespace |
| HtmlContentNewline.ContentFirst | lib/rules/html-content-newline.js:84 | the first non-whitespace token after the start tag, at or before the end tag's first token, with only whitespace in between |
| HtmlContentNewline.ContentLast | lib/rules/html-content-newline.js:85 | the last non-whitespace token before the end tag, at or after the start tag's last token, with only whitespace in between |
| HtmlContentNewline.CheckElement | lib/rules/html-content-newline.js:70-124 | no report for a self-closing element, one without an end tag, an ignored name or an `ignore` policy; otherwise exactly the sides whose break presence differs from the policy, start side first, each with its location, phrases and fix |
| HtmlContentNewline.CheckTemplate | lib/rules/html-content-newline.js:69-125 | the reports are exactly those of the visited elements: every element's reports appear, every report comes from some element, at most two per element |
| HtmlContentNewline.DefaultOptionsSkip | lib/rules/html-content-newline.js:17-31 | with no options the defaults apply, so an element whose two tags each sit on one line is skipped, and so are `pre` and `textarea` |
| HtmlContentNewline.ApplyEdit | lib/rules/html-content-newline.js:101-103 | an insertion adds its text at the offset and a removal drops its range, the rest of the text unchanged around it |
| HtmlContentNewline.AlwaysFixInsertsOneLineBreak | lib/rules/html-content-newline.js:101-120 | under `always` a fix inserts exactly one `"\n"` right after the start tag or right before the end tag |
| HtmlContentNewline.NeverFixRange | lib/rules/html-content-newline.js:103-121 | under `never` the removed range starts strictly after the tag (or content) and ends at the start of the next token |
| HtmlContentNewline.NeverFixKeepsTokens | lib/rules/html-content-newline.js:103-121 | a `never` fix keeps the text up to and including the character after the tag (or content), and moves the next token unchanged |
| HtmlContentNewline.EmptyElementAlwaysReportsBothSides | tests/lib/rules/html-content-newline.js:443-471 | an element with only whitespace inside and both tags touching on one line gets both reports under `always`, each inserting `"\n"` at its tag |
| HtmlContentNewline.OneSideReported | tests/lib/rules/html-content-newline.js:322-347 | on a reduced form of the test input (the `div` alone, indented by two spaces), `<div>content` + line break + `</div>` under `singleline: always` gives only the start-side report: anchored at `>`, `line break` expected, `no line breaks` found, inserting `"\n"` at offset 5 |
| HtmlContentNewline.OneSideFixed | tests/lib/rules/html-content-newline.js:333-339 | applying that report's fix puts `content` on a line of its own, as the expected output shows |
| HtmlContentNewline.BrokenStartReported | tests/lib/rules/html-content-newline.js:389-404 | on a reduced form of the test input (the `div` alone, indented by two spaces), `<div>` + line break + `content</div>` under `singleline: never` gives only the start-side report, `no line breaks` expected, `line break` found, removing `[6, 8)` |
| HtmlContentNewline.NeverFixKeepsLineBreak | tests/lib/rules/html-content-newline.js:397-399 | the code's removal keeps the line break after `<div>`, so the fixed text is not the expected output |

## Left out

- The parser and token store (`getTemplateBodyTokenStore`, `getFirstToken`, `getLastToken`, `indexOf`) are not modelled. The template body arrives as its token list plus the positions of the template's opening and closing tokens. A newline-rule element arrives with the positions of its start tag's last token and its end tag's first token.
- `utils.hasInvalidEOF` and `utils.defineTemplateBodyVisitor` are not part of this model. The first is a boolean input of `CheckProgram`. The second is the element list given to `CheckTemplate`, in visiting order.
- ESLint's `context.report` is left out. Reports are returned as values: the reported token, the previous tag, the location, and the phrases that fill the message templates. Only the order rule's message is assembled as text (`Message`).
- Option schema validation by ESLint is left out. Options arrive already well typed.
- `console.log(token)` and `debugger` have no effect on the result and are dropped.
- Applying fixes is modelled for one edit at a time (`ApplyEdit`). ESLint's merging of overlapping fixes and its repeated fix passes are not modelled.
- `templateAfterTokens.reverse()` reverses a fresh array in place. The model reads the suffix with a downward index instead. Its effect on the array is not observed by the rule.
- The `every` callbacks of both scans always return `true`, so the scans never stop early and the model has no early exit.
- The level counter is an unbounded integer. A JavaScript number cannot overflow on any token list a parser produces.
- CheckProgram and GetTopLevelHTMLTagOpenList require a template body whose end tag is present (`ValidBody`). On a `<template>` without a closing tag the source calls `getLastToken` on a missing end tag (lib/rules/component-tags-order.js:24) and fails with an exception. That exception path is not modelled.
