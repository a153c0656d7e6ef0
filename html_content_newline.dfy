/**
 * The `html-content-newline` rule: for each element of the template, the
 * boundary after its start tag and the boundary before its end tag must (or
 * must not) hold a line break, by a policy chosen from the line layout of the
 * two tags. A wrong boundary is reported with a fix that inserts `"\n"` or
 * removes a range of characters.
 */
module HtmlContentNewline {
  import opened Tokens

  // ---------------------------------------------------------------------------
  // Options
  // ---------------------------------------------------------------------------

  datatype Policy = Ignore | Always | Never

  /** The option object as the user wrote it: a key left out is `None`. */
  datatype UserOptions = UserOptions(singleline: Option<Policy>, multiline: Option<Policy>, ignoreNames: Option<seq<string>>)

  /** No option object at all. */
  const NoOptions: UserOptions := UserOptions(None, None, None)

  datatype Options = Options(singleline: Policy, multiline: Policy, ignoreNames: seq<string>)

  /** `parseOptions`: each key the user gave replaces its default; the others keep it. */
  function ParseOptions(user: UserOptions): (o: Options)
    ensures user.singleline.Some? ==> o.singleline == user.singleline.value
    ensures user.singleline.None? ==> o.singleline == Ignore
    ensures user.multiline.Some? ==> o.multiline == user.multiline.value
    ensures user.multiline.None? ==> o.multiline == Always
    ensures user.ignoreNames.Some? ==> o.ignoreNames == user.ignoreNames.value
    ensures user.ignoreNames.None? ==> o.ignoreNames == ["pre", "textarea"]
  {
    Options(
      match user.singleline case Some(p) => p case None => Ignore,
      match user.multiline case Some(p) => p case None => Always,
      match user.ignoreNames case Some(names) => names case None => ["pre", "textarea"])
  }

  // ---------------------------------------------------------------------------
  // Elements
  // ---------------------------------------------------------------------------

  datatype StartTag = StartTag(selfClosing: bool, range: Range, loc: Location)

  datatype EndTag = EndTag(range: Range, loc: Location)

  /**
   * An element of the template. `startLast` is the position in the token
   * list of the start tag's last token, `endFirst` that of the end tag's
   * first token (meaningful when there is an end tag).
   */
  datatype Element = Element(name: string, startTag: StartTag, endTag: Option<EndTag>, startLast: nat, endFirst: nat)

  predicate OnOneLine(loc: Location)
  {
    loc.start.line == loc.end.line
  }

  /**
   * `detectType`: the single-line policy when each tag begins and ends on one
   * line, the multi-line policy otherwise. Only the tags are consulted, never
   * the content between them.
   */
  function DetectType(o: Options, startTag: StartTag, endTag: EndTag): (p: Policy)
    ensures OnOneLine(startTag.loc) && OnOneLine(endTag.loc) ==> p == o.singleline
    ensures !OnOneLine(startTag.loc) || !OnOneLine(endTag.loc) ==> p == o.multiline
  {
    if startTag.loc.start.line == startTag.loc.end.line && endTag.loc.start.line == endTag.loc.end.line
    then o.singleline
    else o.multiline
  }

  /** `getBreakPhrase`. */
  function BreakPhrase(breaks: bool): (phrase: string)
    ensures breaks <==> phrase == "line break"
    ensures !breaks ==> phrase == "no line breaks"
  {
    if breaks then "line break" else "no line breaks"
  }

  // ---------------------------------------------------------------------------
  // Token lookups
  // ---------------------------------------------------------------------------

  /** The lookups skip whitespace tokens only: comments count as content. */
  predicate IsContent(t: Token)
  {
    t.kind != HTMLWhitespace
  }

  /** `getTokenAfter` with the whitespace filter: the first content token after position `i`. */
  function TokenAfter(tokens: seq<Token>, i: nat): (r: Option<nat>)
    ensures r.Some? ==> i < r.value < |tokens| && IsContent(tokens[r.value])
    ensures r.Some? ==> forall k :: i < k < r.value ==> !IsContent(tokens[k])
    ensures r.None? ==> forall k :: i < k < |tokens| ==> !IsContent(tokens[k])
    decreases |tokens| - i
  {
    if i + 1 >= |tokens| then None
    else if IsContent(tokens[i + 1]) then Some(i + 1)
    else TokenAfter(tokens, i + 1)
  }

  /** `getTokenBefore` with the whitespace filter: the last content token before position `i`. */
  function TokenBefore(tokens: seq<Token>, i: nat): (r: Option<nat>)
    requires i <= |tokens|
    ensures r.Some? ==> r.value < i && IsContent(tokens[r.value])
    ensures r.Some? ==> forall k :: r.value < k < i ==> !IsContent(tokens[k])
    ensures r.None? ==> forall k :: 0 <= k < i ==> !IsContent(tokens[k])
  {
    if i == 0 then None
    else if IsContent(tokens[i - 1]) then Some(i - 1)
    else TokenBefore(tokens, i - 1)
  }

  /**
   * What the parser guarantees of an element with an end tag: the start
   * tag's last token comes before the end tag's first token, and neither is
   * whitespace (they are `>` and `</name`).
   */
  predicate TagTokensPresent(tokens: seq<Token>, e: Element)
  {
    e.endTag.Some? ==>
      e.startLast < e.endFirst < |tokens| && IsContent(tokens[e.startLast]) && IsContent(tokens[e.endFirst])
  }

  /** `contentFirst`: at worst the end tag's own first token. */
  function ContentFirst(tokens: seq<Token>, e: Element): (j: nat)
    requires TagTokensPresent(tokens, e) && e.endTag.Some?
    ensures e.startLast < j <= e.endFirst && IsContent(tokens[j])
    ensures forall k :: e.startLast < k < j ==> !IsContent(tokens[k])
  {
    TokenAfter(tokens, e.startLast).value
  }

  /** `contentLast`: at worst the start tag's own last token. */
  function ContentLast(tokens: seq<Token>, e: Element): (j: nat)
    requires TagTokensPresent(tokens, e) && e.endTag.Some?
    ensures e.startLast <= j < e.endFirst && IsContent(tokens[j])
    ensures forall k :: j < k < e.endFirst ==> !IsContent(tokens[k])
  {
    TokenBefore(tokens, e.endFirst).value
  }

  // ---------------------------------------------------------------------------
  // The VElement handler
  // ---------------------------------------------------------------------------

  /** Which boundary a report is about: after the start tag, or before the end tag. */
  datatype Side = BeforeContent | AfterContent

  /** A fix: insert `text` at `offset`, or remove the characters in `[start, end)`. */
  datatype Edit = InsertText(offset: int, text: string) | RemoveRange(start: int, end: int)

  /**
   * One report: the side, the position of the token it is attached to, the
   * location it spans, the expected and actual phrases of its message, and
   * its fix.
   */
  datatype NewlineReport = NewlineReport(side: Side, anchor: nat, loc: Location, expected: string, actual: string, fix: Edit)

  /** The element is left alone: self-closing, no end tag, an ignored name, or an `ignore` policy. */
  predicate Skipped(e: Element, o: Options)
  {
    e.startTag.selfClosing || e.endTag.None? || e.name in o.ignoreNames
    || DetectType(o, e.startTag, e.endTag.value) == Ignore
  }

  function ElementPolicy(e: Element, o: Options): Policy
    requires e.endTag.Some?
  {
    DetectType(o, e.startTag, e.endTag.value)
  }

  /** `hasBeforeBreaks` / `hasAfterBreaks`: the content starts on a later line than the start tag ends, or ends on an earlier line than the end tag starts. */
  function HasBreak(tokens: seq<Token>, e: Element, side: Side): bool
    requires TagTokensPresent(tokens, e) && e.endTag.Some?
  {
    match side
    case BeforeContent => e.startTag.loc.end.line < tokens[ContentFirst(tokens, e)].loc.start.line
    case AfterContent => tokens[ContentLast(tokens, e)].loc.end.line < e.endTag.value.loc.start.line
  }

  /** A side is reported when a break is wanted (`always`) and absent, or unwanted (`never`) and present. */
  predicate NeedsReport(tokens: seq<Token>, e: Element, o: Options, side: Side)
    requires TagTokensPresent(tokens, e) && e.endTag.Some?
  {
    (ElementPolicy(e, o) == Always) != HasBreak(tokens, e, side)
  }

  /** The report for one side: `always` inserts `"\n"` at the tag, `never` removes from one past the tag or content up to the next one. */
  function SideReport(tokens: seq<Token>, e: Element, o: Options, side: Side): NewlineReport
    requires TagTokensPresent(tokens, e) && e.endTag.Some?
  {
    var always := ElementPolicy(e, o) == Always;
    var endTag := e.endTag.value;
    match side
    case BeforeContent =>
      var first := tokens[ContentFirst(tokens, e)];
      NewlineReport(
        BeforeContent, e.startLast, Location(e.startTag.loc.end, first.loc.start),
        BreakPhrase(always), BreakPhrase(HasBreak(tokens, e, side)),
        if always then InsertText(e.startTag.range.end, "\n") else RemoveRange(e.startTag.range.end + 1, first.range.start))
    case AfterContent =>
      var last := tokens[ContentLast(tokens, e)];
      NewlineReport(
        AfterContent, e.endFirst, Location(last.loc.end, endTag.loc.start),
        BreakPhrase(always), BreakPhrase(HasBreak(tokens, e, side)),
        if always then InsertText(endTag.range.start, "\n") else RemoveRange(last.range.end + 1, endTag.range.start))
  }

  /**
   * The `VElement` handler: no report for a skipped element; otherwise each
   * side independently, the start side first.
   */
  function CheckElement(tokens: seq<Token>, e: Element, o: Options): (reports: seq<NewlineReport>)
    requires TagTokensPresent(tokens, e)
    ensures Skipped(e, o) ==> reports == []
    ensures |reports| <= 2
    ensures forall r :: r in reports ==>
      !Skipped(e, o) && NeedsReport(tokens, e, o, r.side) && r == SideReport(tokens, e, o, r.side)
    ensures forall side :: !Skipped(e, o) && NeedsReport(tokens, e, o, side) ==> SideReport(tokens, e, o, side) in reports
    ensures |reports| == 2 ==> reports[0].side == BeforeContent && reports[1].side == AfterContent
  {
    if Skipped(e, o) then []
    else
      (if NeedsReport(tokens, e, o, BeforeContent) then [SideReport(tokens, e, o, BeforeContent)] else [])
      + (if NeedsReport(tokens, e, o, AfterContent) then [SideReport(tokens, e, o, AfterContent)] else [])
  }

  /** Every element the template visitor reaches, in visiting order, with the options parsed once. */
  function CheckTemplate(tokens: seq<Token>, elements: seq<Element>, o: Options): (reports: seq<NewlineReport>)
    requires forall k :: 0 <= k < |elements| ==> TagTokensPresent(tokens, elements[k])
    ensures |reports| <= 2 * |elements|
    ensures forall r :: r in reports ==> exists k :: 0 <= k < |elements| && r in CheckElement(tokens, elements[k], o)
    ensures forall k, r :: 0 <= k < |elements| && r in CheckElement(tokens, elements[k], o) ==> r in reports
  {
    if elements == [] then []
    else CheckElement(tokens, elements[0], o) + CheckTemplate(tokens, elements[1..], o)
  }

  /**
   * Without options: the defaults apply, an element whose tags each sit on
   * one line is left alone, and so are `pre` and `textarea`.
   */
  lemma DefaultOptionsSkip(e: Element)
    ensures ParseOptions(NoOptions) == Options(Ignore, Always, ["pre", "textarea"])
    ensures e.endTag.Some? && OnOneLine(e.startTag.loc) && OnOneLine(e.endTag.value.loc) ==> Skipped(e, ParseOptions(NoOptions))
    ensures e.name == "pre" || e.name == "textarea" ==> Skipped(e, ParseOptions(NoOptions))
  {
  }

  // ---------------------------------------------------------------------------
  // Fixes applied to the source text
  // ---------------------------------------------------------------------------

  predicate Fits(text: seq<char>, edit: Edit)
  {
    match edit
    case InsertText(p, _) => 0 <= p <= |text|
    case RemoveRange(a, b) => 0 <= a <= b <= |text|
  }

  /** The text after one fix: an insertion adds its text at the offset, a removal drops its range; nothing else moves. */
  function ApplyEdit(text: seq<char>, edit: Edit): (r: seq<char>)
    requires Fits(text, edit)
    ensures edit.InsertText? ==>
      var p, t := edit.offset, edit.text;
      |r| == |text| + |t| && r[..p] == text[..p] && r[p..p + |t|] == t && r[p + |t|..] == text[p..]
    ensures edit.RemoveRange? ==>
      var a, b := edit.start, edit.end;
      |r| == |text| - (b - a) && r[..a] == text[..a] && r[a..] == text[b..]
  {
    match edit
    case InsertText(p, t) => text[..p] + t + text[p..]
    case RemoveRange(a, b) => text[..a] + text[b..]
  }

  /**
   * The tokens lie in order over the text: each range is inside it, tokens
   * do not overlap, and a line break between two tokens takes at least one
   * character.
   */
  ghost predicate Layout(text: seq<char>, tokens: seq<Token>)
  {
    && (forall i :: 0 <= i < |tokens| ==> 0 <= tokens[i].range.start <= tokens[i].range.end <= |text|)
    && (forall i, j :: 0 <= i < j < |tokens| ==> tokens[i].range.end <= tokens[j].range.start)
    && (forall i, j :: 0 <= i < j < |tokens| && tokens[i].loc.end.line < tokens[j].loc.start.line ==>
          tokens[i].range.end < tokens[j].range.start)
  }

  /** The element's tag boundaries are those of its recorded tokens. */
  ghost predicate Anchored(tokens: seq<Token>, e: Element)
  {
    e.endTag.Some? ==>
      && e.startLast < e.endFirst < |tokens|
      && e.startTag.range.end == tokens[e.startLast].range.end
      && e.startTag.loc.end == tokens[e.startLast].loc.end
      && e.endTag.value.range.start == tokens[e.endFirst].range.start
      && e.endTag.value.loc.start == tokens[e.endFirst].loc.start
  }

  /**
   * Under `always`, a fix inserts exactly one `"\n"`, right after the start
   * tag or right before the end tag, and leaves every other character where
   * it was relative to that point.
   */
  lemma AlwaysFixInsertsOneLineBreak(text: seq<char>, tokens: seq<Token>, e: Element, o: Options, r: NewlineReport)
    requires Layout(text, tokens) && TagTokensPresent(tokens, e) && Anchored(tokens, e)
    requires r in CheckElement(tokens, e, o)
    requires ElementPolicy(e, o) == Always
    ensures var p := if r.side == BeforeContent then tokens[e.startLast].range.end else tokens[e.endFirst].range.start;
      && r.fix == InsertText(p, "\n")
      && Fits(text, r.fix)
      && var t := ApplyEdit(text, r.fix);
         |t| == |text| + 1 && t[..p] == text[..p] && t[p] == '\n' && t[p + 1..] == text[p..]
  {
    var p := if r.side == BeforeContent then tokens[e.startLast].range.end else tokens[e.endFirst].range.start;
    var t := ApplyEdit(text, r.fix);
    assert t[p..p + 1] == "\n";
  }

  /**
   * Under `never`, the removed range lies strictly between the tag and the
   * content token: it starts one past the tag (or the content) and ends where
   * the content (or the end tag) begins.
   */
  lemma NeverFixRange(text: seq<char>, tokens: seq<Token>, e: Element, o: Options, r: NewlineReport)
    requires Layout(text, tokens) && TagTokensPresent(tokens, e) && Anchored(tokens, e)
    requires r in CheckElement(tokens, e, o)
    requires ElementPolicy(e, o) == Never
    ensures r.fix.RemoveRange? && Fits(text, r.fix)
    ensures r.side == BeforeContent ==>
      tokens[e.startLast].range.end < r.fix.start <= r.fix.end == tokens[ContentFirst(tokens, e)].range.start
    ensures r.side == AfterContent ==>
      tokens[ContentLast(tokens, e)].range.end < r.fix.start <= r.fix.end == tokens[e.endFirst].range.start
  {
    if r.side == BeforeContent {
      var j := ContentFirst(tokens, e);
      assert tokens[e.startLast].loc.end.line < tokens[j].loc.start.line;
    } else {
      var j := ContentLast(tokens, e);
      assert tokens[j].loc.end.line < tokens[e.endFirst].loc.start.line;
    }
  }

  /**
   * Applying a `never` fix leaves the text up to and including the first
   * character after the tag (or the content) untouched, and moves the
   * following token, content or end tag, left unchanged.
   */
  lemma NeverFixKeepsTokens(text: seq<char>, tokens: seq<Token>, e: Element, o: Options, r: NewlineReport)
    requires Layout(text, tokens) && TagTokensPresent(tokens, e) && Anchored(tokens, e)
    requires r in CheckElement(tokens, e, o)
    requires ElementPolicy(e, o) == Never
    ensures Fits(text, r.fix)
    ensures var next := if r.side == BeforeContent then tokens[ContentFirst(tokens, e)] else tokens[e.endFirst];
      var t := ApplyEdit(text, r.fix);
      var shift := r.fix.end - r.fix.start;
      && r.fix.RemoveRange?
      && t[..r.fix.start] == text[..r.fix.start]
      && t[r.fix.start - 1] == text[r.fix.start - 1]
      && t[next.range.start - shift..next.range.end - shift] == text[next.range.start..next.range.end]
  {
    NeverFixRange(text, tokens, e, o, r);
    var next := if r.side == BeforeContent then tokens[ContentFirst(tokens, e)] else tokens[e.endFirst];
    RemovalKeeps(text, r.fix.start, r.fix.end, next.range.end);
  }

  /** Removing `[a, b)` keeps what precedes `a` and shifts `[b, n)` left by `b - a`, unchanged. */
  lemma RemovalKeeps(text: seq<char>, a: int, b: int, n: int)
    requires 0 < a <= b <= n <= |text|
    ensures var t := ApplyEdit(text, RemoveRange(a, b));
      && t[..a] == text[..a]
      && t[a - 1] == text[a - 1]
      && t[b - (b - a)..n - (b - a)] == text[b..n]
  {
    var t := ApplyEdit(text, RemoveRange(a, b));
    assert t[a..] == text[b..];
    assert t[a..][..n - b] == t[a..n - (b - a)];
  }

  /**
   * An element with nothing but whitespace between its tags, the two tags
   * touching on one line, gets both reports under `always`: each lookup lands
   * on the other tag's token.
   */
  lemma EmptyElementAlwaysReportsBothSides(tokens: seq<Token>, e: Element, o: Options)
    requires TagTokensPresent(tokens, e) && Anchored(tokens, e)
    requires e.endTag.Some? && !e.startTag.selfClosing && e.name !in o.ignoreNames
    requires ElementPolicy(e, o) == Always
    requires forall k :: e.startLast < k < e.endFirst ==> !IsContent(tokens[k])
    requires tokens[e.startLast].loc.end.line == tokens[e.endFirst].loc.start.line
    ensures var rs := CheckElement(tokens, e, o);
      |rs| == 2
      && rs[0].side == BeforeContent && rs[0].fix == InsertText(e.startTag.range.end, "\n")
      && rs[1].side == AfterContent && rs[1].fix == InsertText(e.endTag.value.range.start, "\n")
  {
    assert ContentFirst(tokens, e) == e.endFirst;
    assert ContentLast(tokens, e) == e.startLast;
  }

  // ---------------------------------------------------------------------------
  // The rule's own test cases
  // ---------------------------------------------------------------------------

  function Tok(kind: TokenKind, value: string, start: int, end: int, line: int, col: int, endLine: int, endCol: int): Token
  {
    Token(kind, value, Range(start, end), Location(Position(line, col), Position(endLine, endCol)))
  }

  /** `<div>content\n  </div>`: content on the start tag's line, a line break before the end tag. */
  const OneSideText: string := "<div>content\n  </div>"

  const OneSideTokens: seq<Token> := [
    Tok(HTMLTagOpen, "div", 0, 4, 1, 0, 1, 4),
    Tok(HTMLTagClose, "", 4, 5, 1, 4, 1, 5),
    Tok(HTMLText, "content", 5, 12, 1, 5, 1, 12),
    Tok(HTMLWhitespace, "\n  ", 12, 15, 1, 12, 2, 2),
    Tok(HTMLEndTagOpen, "div", 15, 20, 2, 2, 2, 7),
    Tok(HTMLTagClose, "", 20, 21, 2, 7, 2, 8)]

  const OneSideElement: Element :=
    Element("div", StartTag(false, Range(0, 5), Location(Position(1, 0), Position(1, 5))),
      Some(EndTag(Range(15, 21), Location(Position(2, 2), Position(2, 8)))), 1, 4)

  /** With `singleline: always` only the start side is reported, with an inserted line break as its fix. */
  lemma OneSideReported()
    ensures var rs := CheckElement(OneSideTokens, OneSideElement, ParseOptions(UserOptions(Some(Always), None, None)));
      && |rs| == 1
      && rs[0].side == BeforeContent && rs[0].anchor == 1
      && rs[0].loc == Location(Position(1, 5), Position(1, 5))
      && rs[0].expected == "line break" && rs[0].actual == "no line breaks"
      && rs[0].fix == InsertText(5, "\n")
  {
    var tokens, e := OneSideTokens, OneSideElement;
    var o := ParseOptions(UserOptions(Some(Always), None, None));
    assert ElementPolicy(e, o) == Always && !Skipped(e, o);
    assert ContentFirst(tokens, e) == 2;
    assert ContentLast(tokens, e) == 2;
    assert NeedsReport(tokens, e, o, BeforeContent);
    assert !NeedsReport(tokens, e, o, AfterContent);
    assert CheckElement(tokens, e, o) == [SideReport(tokens, e, o, BeforeContent)];
  }

  /** The fix of that report puts `content` on a line of its own. */
  lemma OneSideFixed()
    ensures var rs := CheckElement(OneSideTokens, OneSideElement, ParseOptions(UserOptions(Some(Always), None, None)));
      |rs| == 1 && ApplyEdit(OneSideText, rs[0].fix) == "<div>\ncontent\n  </div>"
  {
    OneSideReported();
    InsertAfterDiv();
  }

  /** Inserting `"\n"` after `<div>` in the one-side text. */
  lemma InsertAfterDiv()
    ensures ApplyEdit(OneSideText, InsertText(5, "\n")) == "<div>\ncontent\n  </div>"
  {
    var t := OneSideText;
    assert t[..5] == "<div>";
    assert t[5..] == "content\n  </div>";
    assert ApplyEdit(t, InsertText(5, "\n")) == "<div>" + "\n" + "content\n  </div>";
  }

  /** `<div>\n  content</div>`: a line break after the start tag, none before the end tag. */
  const BrokenStartText: string := "<div>\n  content</div>"

  const BrokenStartTokens: seq<Token> := [
    Tok(HTMLTagOpen, "div", 0, 4, 1, 0, 1, 4),
    Tok(HTMLTagClose, "", 4, 5, 1, 4, 1, 5),
    Tok(HTMLWhitespace, "\n  ", 5, 8, 1, 5, 2, 2),
    Tok(HTMLText, "content", 8, 15, 2, 2, 2, 9),
    Tok(HTMLEndTagOpen, "div", 15, 20, 2, 9, 2, 14),
    Tok(HTMLTagClose, "", 20, 21, 2, 14, 2, 15)]

  const BrokenStartElement: Element :=
    Element("div", StartTag(false, Range(0, 5), Location(Position(1, 0), Position(1, 5))),
      Some(EndTag(Range(15, 21), Location(Position(2, 9), Position(2, 15)))), 1, 4)

  /** With `singleline: never` only the start side is reported, its removal starting one past `>`. */
  lemma BrokenStartReported()
    ensures var rs := CheckElement(BrokenStartTokens, BrokenStartElement, ParseOptions(UserOptions(Some(Never), None, None)));
      && |rs| == 1
      && rs[0].side == BeforeContent && rs[0].fix == RemoveRange(6, 8)
      && rs[0].expected == "no line breaks" && rs[0].actual == "line break"
  {
    var tokens, e := BrokenStartTokens, BrokenStartElement;
    var o := ParseOptions(UserOptions(Some(Never), None, None));
    assert ElementPolicy(e, o) == Never && !Skipped(e, o);
    assert ContentFirst(tokens, e) == 3;
    assert ContentLast(tokens, e) == 3;
    assert NeedsReport(tokens, e, o, BeforeContent);
    assert !NeedsReport(tokens, e, o, AfterContent);
    assert CheckElement(tokens, e, o) == [SideReport(tokens, e, o, BeforeContent)];
  }

  /** The removal keeps the first character after `>`, so the line break survives the fix. */
  lemma NeverFixKeepsLineBreak()
    ensures var rs := CheckElement(BrokenStartTokens, BrokenStartElement, ParseOptions(UserOptions(Some(Never), None, None)));
      |rs| == 1 && ApplyEdit(BrokenStartText, rs[0].fix) == "<div>\ncontent</div>"
  {
    BrokenStartReported();
    RemoveIndent();
  }

  /** Removing the two-space indent after the line break in the broken-start text. */
  lemma RemoveIndent()
    ensures ApplyEdit(BrokenStartText, RemoveRange(6, 8)) == "<div>\ncontent</div>"
  {
    var t := BrokenStartText;
    assert t[..6] == "<div>\n";
    assert t[8..] == "content</div>";
    assert ApplyEdit(t, RemoveRange(6, 8)) == "<div>\n" + "content</div>";
  }
}
