/**
 * The `component-tags-order` rule: the top-level blocks of a single-file
 * component (`<script>`, `<template>`, `<style>`, ...) must appear in a
 * configured order. The rule recovers the top-level opening tags from the
 * flat HTML token list with an integer level counter (a forward scan before
 * `<template>`, a backward scan from `</template>` to the end of the file),
 * then reports every ranked tag whose rank is below that of the last tag it
 * accepted.
 */
module ComponentTagsOrder {
  import opened Tokens

  /** The order used when the rule is given no `order` option. */
  const DefaultOrder: seq<string> := ["script", "template", "style"]

  /** The `order` option, when present (even empty), replaces the default entirely. */
  function SelectOrder(option: Option<seq<string>>): (order: seq<string>)
    ensures option.None? ==> order == DefaultOrder
    ensures option.Some? ==> order == option.value
  {
    match option
    case None => DefaultOrder
    case Some(o) => o
  }

  // ---------------------------------------------------------------------------
  // The level counter
  // ---------------------------------------------------------------------------

  /** How one token moves the level of the forward scan (the backward scan moves it the other way). */
  ghost function Delta(t: Token): int
  {
    if t.kind == HTMLTagOpen then 1
    else if t.kind == HTMLEndTagOpen || t.kind == HTMLSelfClosingTagClose then -1
    else 0
  }

  /** The net level the tokens of `s` add: tag-opens minus end-tag-opens and self-closings. */
  ghost function Depth(s: seq<Token>): int
  {
    if s == [] then 0 else Delta(s[0]) + Depth(s[1..])
  }

  lemma {:induction false} DepthAppend(a: seq<Token>, b: seq<Token>)
    ensures Depth(a + b) == Depth(a) + Depth(b)
  {
    if a == [] {
      assert a + b == b;
    } else {
      assert (a + b)[1..] == a[1..] + b;
      DepthAppend(a[1..], b);
    }
  }

  // ---------------------------------------------------------------------------
  // Forward scan: the tokens before the template's opening token
  // ---------------------------------------------------------------------------

  /**
   * Token `i` is collected by the forward scan: it is a tag-open and the
   * level, counted over the tokens before it, is 0 (the test comes before
   * the update).
   */
  ghost predicate IsTopBefore(s: seq<Token>, i: int)
    requires 0 <= i < |s|
  {
    s[i].kind == HTMLTagOpen && Depth(s[..i]) == 0
  }

  /** The positions below `n` that the forward scan collects, in source order. */
  ghost function TopIndicesBelow(s: seq<Token>, n: nat): (r: seq<nat>)
    requires n <= |s|
    ensures forall k :: 0 <= k < |r| ==> r[k] < n
    ensures Increasing(r)
  {
    if n == 0 then []
    else TopIndicesBelow(s, n - 1) + (if IsTopBefore(s, n - 1) then [n - 1] else [])
  }

  lemma {:induction false} TopIndicesBelowMembers(s: seq<Token>, n: nat)
    requires n <= |s|
    ensures forall i :: 0 <= i < n ==> (i in TopIndicesBelow(s, n) <==> IsTopBefore(s, i))
  {
    if n > 0 {
      TopIndicesBelowMembers(s, n - 1);
    }
  }

  /** The first `every` loop: pushes each tag-open met at level 0, then updates the level. */
  method ScanForward(tokens: seq<Token>) returns (results: seq<Token>)
    ensures results == Picks(tokens, TopIndicesBelow(tokens, |tokens|))
  {
    results := [];
    var level := 0;
    var i := 0;
    while i < |tokens|
      invariant 0 <= i <= |tokens|
      invariant level == Depth(tokens[..i])
      invariant |results| == |TopIndicesBelow(tokens, i)|
      invariant forall k :: 0 <= k < |results| ==> results[k] == tokens[TopIndicesBelow(tokens, i)[k]]
    {
      var token := tokens[i];
      if level == 0 && token.kind == HTMLTagOpen {
        results := results + [token];
      }
      if token.kind == HTMLTagOpen {
        level := level + 1;
      } else if token.kind == HTMLEndTagOpen || token.kind == HTMLSelfClosingTagClose {
        level := level - 1;
      }
      assert tokens[..i + 1] == tokens[..i] + [token];
      DepthAppend(tokens[..i], [token]);
      i := i + 1;
    }
  }

  // ---------------------------------------------------------------------------
  // Backward scan: the tokens from the template's closing token to the end
  // ---------------------------------------------------------------------------

  /**
   * Token `j` is collected by the backward scan: it is a tag-open and the
   * level, counted from the end back to and including it, is 0 (the update
   * comes before the test).
   */
  ghost predicate IsTopAfter(s: seq<Token>, j: int)
    requires 0 <= j < |s|
  {
    s[j].kind == HTMLTagOpen && Depth(s[j..]) == 0
  }

  /** The level of a suffix, one token at a time from its front. */
  lemma DepthStep(s: seq<Token>, j: nat)
    requires j < |s|
    ensures Depth(s[j..]) == Delta(s[j]) + Depth(s[j + 1..])
  {
    assert s[j..][1..] == s[j + 1..];
  }

  /** The positions from `j` on that the backward scan collects, in source order. */
  ghost function TopIndicesFrom(s: seq<Token>, j: nat): (r: seq<nat>)
    requires j <= |s|
    ensures forall k :: 0 <= k < |r| ==> j <= r[k] < |s|
    ensures Increasing(r)
    decreases |s| - j
  {
    if j == |s| then []
    else (if IsTopAfter(s, j) then [j] else []) + TopIndicesFrom(s, j + 1)
  }

  lemma {:induction false} TopIndicesFromMembers(s: seq<Token>, j: nat)
    requires j <= |s|
    ensures forall i :: j <= i < |s| ==> (i in TopIndicesFrom(s, j) <==> IsTopAfter(s, i))
    decreases |s| - j
  {
    if j < |s| {
      TopIndicesFromMembers(s, j + 1);
    }
  }

  /** `Array.prototype.reverse`, as a value. */
  function Reverse<T>(s: seq<T>): (r: seq<T>)
    ensures |r| == |s|
    ensures forall k :: 0 <= k < |s| ==> r[k] == s[|s| - 1 - k]
  {
    if s == [] then [] else Reverse(s[1..]) + [s[0]]
  }

  /** Pushing onto the list puts the new element at the front of its reversal. */
  lemma ReverseSnoc<T>(s: seq<T>, x: T)
    ensures Reverse(s + [x]) == [x] + Reverse(s)
  {
    var r, t := Reverse(s + [x]), [x] + Reverse(s);
    assert |r| == |t|;
    forall k | 0 <= k < |r|
      ensures r[k] == t[k]
    {
      if k > 0 {
        assert (s + [x])[|s| - k] == s[|s| - 1 - (k - 1)];
      }
    }
  }

  /** Picking one more, earlier position adds its token at the front. */
  lemma PicksCons(s: seq<Token>, i: nat, idx: seq<nat>)
    requires i < |s| && forall k :: 0 <= k < |idx| ==> idx[k] < |s|
    ensures Picks(s, [i] + idx) == [s[i]] + Picks(s, idx)
  {
    var r, t := Picks(s, [i] + idx), [s[i]] + Picks(s, idx);
    assert |r| == |t|;
    forall k | 0 <= k < |r|
      ensures r[k] == t[k]
    {
      if k > 0 {
        assert ([i] + idx)[k] == idx[k - 1];
      }
    }
  }

  /**
   * The second `every` loop, over the tokens taken from the end: updates the
   * level, then pushes each tag-open at level 0; the pushed list is reversed
   * back into source order at the end.
   */
  method ScanBackward(tokens: seq<Token>) returns (results: seq<Token>)
    ensures results == Picks(tokens, TopIndicesFrom(tokens, 0))
  {
    var collected: seq<Token> := [];
    var level := 0;
    var i := |tokens|;
    while i > 0
      invariant 0 <= i <= |tokens|
      invariant level == -Depth(tokens[i..])
      invariant Reverse(collected) == Picks(tokens, TopIndicesFrom(tokens, i))
    {
      i := i - 1;
      var token := tokens[i];
      DepthStep(tokens, i);
      if token.kind == HTMLTagOpen {
        level := level - 1;
      } else if token.kind == HTMLEndTagOpen || token.kind == HTMLSelfClosingTagClose {
        level := level + 1;
      }
      if level == 0 && token.kind == HTMLTagOpen {
        assert IsTopAfter(tokens, i);
        ReverseSnoc(collected, token);
        PicksCons(tokens, i, TopIndicesFrom(tokens, i + 1));
        collected := collected + [token];
      } else {
        assert !IsTopAfter(tokens, i);
      }
    }
    results := Reverse(collected);
  }

  // ---------------------------------------------------------------------------
  // Top-level opening tags around the template
  // ---------------------------------------------------------------------------

  /**
   * The template body as the rule reads it: all HTML tokens of the file, the
   * position of the first token of the template's start tag and that of the
   * last token of its end tag.
   */
  datatype TemplateBody = TemplateBody(tokens: seq<Token>, openIndex: nat, closeIndex: nat)

  /**
   * Assumed of the template body: both tokens are in the list, the start tag
   * first. A template without an end tag is not covered by this model.
   */
  ghost predicate ValidBody(b: TemplateBody)
  {
    b.openIndex < b.closeIndex < |b.tokens|
  }

  ghost function Shift(idx: seq<nat>, d: nat): (r: seq<nat>)
    ensures |r| == |idx|
    ensures forall k :: 0 <= k < |idx| ==> r[k] == idx[k] + d
  {
    seq(|idx|, k requires 0 <= k < |idx| => idx[k] + d)
  }

  /** Where the collected tags sit in the token list: before-scan, template opener, after-scan. */
  ghost function TopLevelIndices(b: TemplateBody): (r: seq<nat>)
    requires ValidBody(b)
    ensures forall k :: 0 <= k < |r| ==> r[k] < |b.tokens|
    ensures Increasing(r)
  {
    var before := TopIndicesBelow(b.tokens[..b.openIndex], b.openIndex);
    var after := Shift(TopIndicesFrom(b.tokens[b.closeIndex..], 0), b.closeIndex);
    assert forall k :: 0 <= k < |after| ==> b.closeIndex <= after[k];
    before + [b.openIndex] + after
  }

  /** A position before the template is collected exactly when the forward scan of the whole prefix collects it. */
  lemma BeforeMembers(s: seq<Token>, n: nat, i: nat)
    requires i < n <= |s|
    ensures i in TopIndicesBelow(s[..n], n) <==> IsTopBefore(s, i)
  {
    TopIndicesBelowMembers(s[..n], n);
    assert s[..n][..i] == s[..i];
  }

  /** A position from the template's closing token on is collected exactly when the backward scan keeps it. */
  lemma AfterMembers(s: seq<Token>, c: nat, i: nat)
    requires c <= i < |s|
    ensures i in Shift(TopIndicesFrom(s[c..], 0), c) <==> IsTopAfter(s, i)
  {
    var post := s[c..];
    var after := TopIndicesFrom(post, 0);
    var shifted := Shift(after, c);
    var j := i - c;
    TopIndicesFromMembers(post, 0);
    assert post[j..] == s[i..];
    assert IsTopAfter(post, j) == IsTopAfter(s, i);
    if i in shifted {
      var k :| 0 <= k < |shifted| && shifted[k] == i;
      assert after[k] == j;
    }
    if j in after {
      var k :| 0 <= k < |after| && after[k] == j;
      assert shifted[k] == i;
    }
  }

  /**
   * A token is a top-level opening tag exactly when it is one the forward
   * scan collects before the template, the template's own opener, or one the
   * backward scan collects from the template's closing token on.
   */
  lemma TopLevelIndicesMembers(b: TemplateBody)
    requires ValidBody(b)
    ensures forall i :: 0 <= i < |b.tokens| ==>
      (i in TopLevelIndices(b) <==>
        (i < b.openIndex && IsTopBefore(b.tokens, i))
        || i == b.openIndex
        || (b.closeIndex <= i && IsTopAfter(b.tokens, i)))
  {
    var s := b.tokens;
    var before := TopIndicesBelow(s[..b.openIndex], b.openIndex);
    var shifted := Shift(TopIndicesFrom(s[b.closeIndex..], 0), b.closeIndex);
    assert TopLevelIndices(b) == before + [b.openIndex] + shifted;
    forall i | 0 <= i < |s|
      ensures i in TopLevelIndices(b) <==>
        (i < b.openIndex && IsTopBefore(s, i))
        || i == b.openIndex
        || (b.closeIndex <= i && IsTopAfter(s, i))
    {
      assert i in TopLevelIndices(b) <==> i in before || i == b.openIndex || i in shifted;
      if i < b.openIndex {
        BeforeMembers(s, b.openIndex, i);
        assert i !in shifted;
      } else if i < b.closeIndex {
        assert i !in before && i !in shifted;
      } else {
        AfterMembers(s, b.closeIndex, i);
        assert i !in before;
      }
    }
  }

  /**
   * `getTopLevelHTMLTagOpenList`: the forward scan's tags, then the template's
   * opening token, then the backward scan's tags, all in source order.
   */
  method GetTopLevelHTMLTagOpenList(body: TemplateBody) returns (tags: seq<Token>)
    requires ValidBody(body)
    ensures tags == Picks(body.tokens, TopLevelIndices(body))
    ensures var n := |TopIndicesBelow(body.tokens[..body.openIndex], body.openIndex)|;
      n < |tags| && tags[n] == body.tokens[body.openIndex]
  {
    var tokens := body.tokens;
    var templateOpen := tokens[body.openIndex];
    var beforeResults := ScanForward(tokens[..body.openIndex]);
    var afterResults := ScanBackward(tokens[body.closeIndex..]);
    tags := beforeResults + [templateOpen] + afterResults;
    ghost var before := TopIndicesBelow(tokens[..body.openIndex], body.openIndex);
    ghost var after := TopIndicesFrom(tokens[body.closeIndex..], 0);
    ghost var all := TopLevelIndices(body);
    assert all == before + [body.openIndex] + Shift(after, body.closeIndex);
    forall k | 0 <= k < |tags|
      ensures tags[k] == tokens[all[k]]
    {
      if k < |before| {
        assert tags[k] == beforeResults[k];
      } else if k > |before| {
        var m := k - |before| - 1;
        assert tags[k] == afterResults[m];
        assert all[k] == after[m] + body.closeIndex;
      }
    }
  }

  // ---------------------------------------------------------------------------
  // Ranks and the order comparator
  // ---------------------------------------------------------------------------

  /** `Array.prototype.indexOf`: the first position of `name` in `order`, or -1. */
  function IndexOf(order: seq<string>, name: string): (r: int)
    ensures -1 <= r < |order|
    ensures r < 0 <==> name !in order
    ensures 0 <= r ==> order[r] == name && name !in order[..r]
  {
    if order == [] then -1
    else if order[0] == name then 0
    else
      var k := IndexOf(order[1..], name);
      if k < 0 then -1 else k + 1
  }

  /** A tag's rank: its name's position in the order, -1 when it is not listed. */
  function Rank(order: seq<string>, tag: Token): int
  {
    IndexOf(order, tag.value)
  }

  /** The largest rank among the tags of `s`, or -1 when none is ranked. */
  ghost function MaxRank(order: seq<string>, s: seq<Token>): (m: int)
    ensures m >= -1
    ensures forall k :: 0 <= k < |s| ==> Rank(order, s[k]) <= m
  {
    if s == [] then -1
    else
      var m0 := MaxRank(order, s[..|s| - 1]);
      var r := Rank(order, s[|s| - 1]);
      if r > m0 then r else m0
  }

  /** The position of the last tag of `s` that has the largest rank. */
  ghost function LastAtMax(order: seq<string>, s: seq<Token>): (j: nat)
    requires MaxRank(order, s) >= 0
    ensures j < |s| && Rank(order, s[j]) == MaxRank(order, s)
    ensures forall k :: j < k < |s| ==> Rank(order, s[k]) < MaxRank(order, s)
  {
    var n := |s| - 1;
    if Rank(order, s[n]) == MaxRank(order, s) then n
    else LastAtMax(order, s[..n])
  }

  /** `MaxRank` is reached by a tag of `s`, and is `-1` exactly when no tag of `s` is ranked. */
  lemma MaxRankAttained(order: seq<string>, s: seq<Token>)
    ensures MaxRank(order, s) == -1 <==> forall k :: 0 <= k < |s| ==> Rank(order, s[k]) < 0
    ensures MaxRank(order, s) >= 0 ==> exists k :: 0 <= k < |s| && Rank(order, s[k]) == MaxRank(order, s)
  {
    if MaxRank(order, s) >= 0 {
      var j := LastAtMax(order, s);
    }
  }

  /** One violation: `tag` should go before `previous`. No fix is offered. */
  datatype OrderReport = OrderReport(tag: Token, previous: Token)

  function Message(r: OrderReport): string
  {
    "<" + r.tag.value + "> should go before <" + r.previous.value + ">."
  }

  /** The tag after the tags `seen` is reported: it is ranked, below the largest rank seen. */
  ghost predicate IsReportedAfter(order: seq<string>, seen: seq<Token>, tag: Token)
  {
    0 <= Rank(order, tag) < MaxRank(order, seen)
  }

  /**
   * The reports for `tags`, in order: each reported tag is paired with the
   * last tag before it that has the largest rank seen so far.
   */
  ghost function ExpectedReports(order: seq<string>, tags: seq<Token>): seq<OrderReport>
  {
    if tags == [] then []
    else
      var seen := tags[..|tags| - 1];
      var tag := tags[|tags| - 1];
      ExpectedReports(order, seen)
        + (if IsReportedAfter(order, seen, tag) then [OrderReport(tag, seen[LastAtMax(order, seen)])] else [])
  }

  /** The positions of the reported tags, in order. */
  ghost function ReportedIndices(order: seq<string>, tags: seq<Token>): (r: seq<nat>)
    ensures forall k :: 0 <= k < |r| ==> r[k] < |tags|
    ensures Increasing(r)
  {
    if tags == [] then []
    else
      var n := |tags| - 1;
      ReportedIndices(order, tags[..n]) + (if IsReportedAfter(order, tags[..n], tags[n]) then [n] else [])
  }

  lemma {:induction false} ReportedIndicesMembers(order: seq<string>, tags: seq<Token>)
    ensures forall i :: 0 <= i < |tags| ==>
      (i in ReportedIndices(order, tags) <==> IsReportedAfter(order, tags[..i], tags[i]))
  {
    if tags != [] {
      var n := |tags| - 1;
      var pre := ReportedIndices(order, tags[..n]);
      var last := if IsReportedAfter(order, tags[..n], tags[n]) then [n] else [];
      assert ReportedIndices(order, tags) == pre + last;
      ReportedIndicesMembers(order, tags[..n]);
      forall i | 0 <= i < |tags|
        ensures i in ReportedIndices(order, tags) <==> IsReportedAfter(order, tags[..i], tags[i])
      {
        if i < n {
          assert tags[..n][..i] == tags[..i] && tags[..n][i] == tags[i];
          assert i !in last;
        } else {
          assert i !in pre;
          assert tags[..i] == tags[..n];
        }
      }
    }
  }

  /**
   * The reports name the reported tags in order, and each names as its
   * `previous` a tag of higher rank that came before it.
   */
  lemma {:induction false} ExpectedReportsMatch(order: seq<string>, tags: seq<Token>)
    ensures var rs := ExpectedReports(order, tags);
      var idx := ReportedIndices(order, tags);
      |rs| == |idx|
      && forall k :: 0 <= k < |rs| ==>
           rs[k].tag == tags[idx[k]]
           && Rank(order, rs[k].tag) < Rank(order, rs[k].previous)
           && Rank(order, rs[k].previous) == MaxRank(order, tags[..idx[k]])
           && rs[k].previous in tags[..idx[k]]
  {
    if tags != [] {
      var n := |tags| - 1;
      ExpectedReportsMatch(order, tags[..n]);
      var idx := ReportedIndices(order, tags[..n]);
      forall k | 0 <= k < |idx|
        ensures tags[..n][idx[k]] == tags[idx[k]] && tags[..n][..idx[k]] == tags[..idx[k]]
      {
      }
    }
  }

  /**
   * The running maximum in words: a tag is reported exactly when it is ranked
   * and some earlier tag has a strictly higher rank.
   */
  lemma ReportedIff(order: seq<string>, tags: seq<Token>, i: nat)
    requires i < |tags|
    ensures i in ReportedIndices(order, tags) <==>
      0 <= Rank(order, tags[i]) && exists j :: 0 <= j < i && Rank(order, tags[i]) < Rank(order, tags[j])
  {
    ReportedIndicesMembers(order, tags);
    var seen := tags[..i];
    if IsReportedAfter(order, seen, tags[i]) {
      var j := LastAtMax(order, seen);
      assert seen[j] == tags[j];
    }
    if exists j :: 0 <= j < i && Rank(order, tags[i]) < Rank(order, tags[j]) {
      var j :| 0 <= j < i && Rank(order, tags[i]) < Rank(order, tags[j]);
      assert seen[j] == tags[j];
    }
  }

  /** Nothing is reported exactly when the ranked tags appear in non-decreasing rank. */
  lemma NoReportsIffOrdered(order: seq<string>, tags: seq<Token>)
    ensures ExpectedReports(order, tags) == [] <==>
      forall j, k :: 0 <= j < k < |tags| && 0 <= Rank(order, tags[k]) ==> Rank(order, tags[j]) <= Rank(order, tags[k])
  {
    ExpectedReportsMatch(order, tags);
    var idx := ReportedIndices(order, tags);
    if idx != [] {
      ReportedIff(order, tags, idx[0]);
    }
    if exists j, k :: 0 <= j < k < |tags| && 0 <= Rank(order, tags[k]) && Rank(order, tags[j]) > Rank(order, tags[k]) {
      var j, k :| 0 <= j < k < |tags| && 0 <= Rank(order, tags[k]) && Rank(order, tags[j]) > Rank(order, tags[k]);
      ReportedIff(order, tags, k);
      ReportedIndicesMembers(order, tags);
    }
  }

  /**
   * The `forEach` of the `Program` handler: `preTarget`/`preTargetIndex` hold
   * the last accepted tag and its rank; an unranked tag changes nothing, a
   * ranked tag below `preTargetIndex` is reported and not accepted.
   */
  method ReportOutOfOrder(order: seq<string>, tags: seq<Token>) returns (reports: seq<OrderReport>)
    ensures reports == ExpectedReports(order, tags)
  {
    reports := [];
    var preTarget: Option<Token> := None;
    var preTargetIndex := -1;
    var i := 0;
    while i < |tags|
      invariant 0 <= i <= |tags|
      invariant preTargetIndex == MaxRank(order, tags[..i])
      invariant preTarget.Some? <==> preTargetIndex >= 0
      invariant preTarget.Some? ==> preTarget.value == tags[..i][LastAtMax(order, tags[..i])]
      invariant reports == ExpectedReports(order, tags[..i])
    {
      var tag := tags[i];
      var index := IndexOf(order, tag.value);
      assert tags[..i + 1][..i] == tags[..i];
      if index >= 0 {
        if preTarget.Some? && preTargetIndex > index {
          reports := reports + [OrderReport(tag, preTarget.value)];
        } else {
          preTarget := Some(tag);
          preTargetIndex := index;
        }
      }
      i := i + 1;
    }
    assert tags[..|tags|] == tags;
  }

  /**
   * The `Program` handler: nothing when the file has an invalid end or no
   * template; otherwise the comparator over the top-level opening tags.
   */
  method CheckProgram(hasInvalidEOF: bool, templateBody: Option<TemplateBody>, orderOption: Option<seq<string>>)
    returns (reports: seq<OrderReport>)
    requires templateBody.Some? ==> ValidBody(templateBody.value)
    ensures hasInvalidEOF || templateBody.None? ==> reports == []
    ensures !hasInvalidEOF && templateBody.Some? ==>
      var body := templateBody.value;
      reports == ExpectedReports(SelectOrder(orderOption), Picks(body.tokens, TopLevelIndices(body)))
  {
    var order := SelectOrder(orderOption);
    if hasInvalidEOF {
      return [];
    }
    if templateBody.None? {
      return [];
    }
    var tags := GetTopLevelHTMLTagOpenList(templateBody.value);
    reports := ReportOutOfOrder(order, tags);
  }

  // ---------------------------------------------------------------------------
  // The rule's own test cases
  // ---------------------------------------------------------------------------

  /** The ranks of the three block names under the default order. */
  lemma DefaultRanks(t: Token)
    ensures t.value == "script" ==> Rank(DefaultOrder, t) == 0
    ensures t.value == "template" ==> Rank(DefaultOrder, t) == 1
    ensures t.value == "style" ==> Rank(DefaultOrder, t) == 2
  {
  }

  /** Two ranked tags, the second below the first: the second is reported against the first. */
  lemma DescendingPairReported(order: seq<string>, a: Token, b: Token)
    requires 0 <= Rank(order, b) < Rank(order, a)
    ensures MaxRank(order, [a, b]) == Rank(order, a) && LastAtMax(order, [a, b]) == 0
    ensures ExpectedReports(order, [a, b]) == [OrderReport(b, a)]
  {
    assert [a][..0] == [] && [a, b][..1] == [a];
    assert MaxRank(order, [a]) == Rank(order, a);
    assert ExpectedReports(order, [a]) == [];
    assert LastAtMax(order, [a]) == 0;
  }

  /** A third tag ranked at least as high as the first adds no report to a descending pair. */
  lemma ThirdNotBelowPair(order: seq<string>, a: Token, b: Token, c: Token)
    requires 0 <= Rank(order, b) < Rank(order, a) <= Rank(order, c)
    ensures ExpectedReports(order, [a, b, c]) == [OrderReport(b, a)]
  {
    DescendingPairReported(order, a, b);
    assert [a, b, c][..2] == [a, b];
  }

  /** The text of the report the rule's test expects. */
  lemma ScriptBeforeTemplateMessage(script: Token, template: Token)
    requires script.value == "script" && template.value == "template"
    ensures Message(OrderReport(script, template)) == "<script> should go before <template>."
  {
    assert "<" + script.value == "<script";
    assert "<script" + "> should go before <" == "<script> should go before <";
    assert "<script> should go before <" + template.value == "<script> should go before <template";
  }

  /** `<template></template><script></script><style></style>` with the default order: one report. */
  lemma TemplateBeforeScriptReported(template: Token, script: Token, style: Token)
    requires template.value == "template" && script.value == "script" && style.value == "style"
    ensures ExpectedReports(DefaultOrder, [template, script, style]) == [OrderReport(script, template)]
    ensures Message(OrderReport(script, template)) == "<script> should go before <template>."
  {
    ScriptBeforeTemplateMessage(script, template);
    DefaultRanks(template);
    DefaultRanks(script);
    DefaultRanks(style);
    ThirdNotBelowPair(DefaultOrder, template, script, style);
  }

  /** `<script></script><template></template><style></style>` with the default order: no report. */
  lemma ScriptTemplateStyleAccepted(script: Token, template: Token, style: Token)
    requires template.value == "template" && script.value == "script" && style.value == "style"
    ensures ExpectedReports(DefaultOrder, [script, template, style]) == []
  {
    var tags := [script, template, style];
    assert Rank(DefaultOrder, template) == 1;
    assert Rank(DefaultOrder, script) == 0;
    assert Rank(DefaultOrder, style) == 2;
    NoReportsIffOrdered(DefaultOrder, tags);
  }

  /**
   * The tokens of `<template></template><script></script><style></style>`:
   * a tag-open, `>`, an end-tag-open and `>` for each block in turn.
   */
  ghost predicate TemplateFirstShape(s: seq<Token>)
  {
    && |s| == 12
    && s[0].kind == HTMLTagOpen && s[1].kind == HTMLTagClose && s[2].kind == HTMLEndTagOpen && s[3].kind == HTMLTagClose
    && s[4].kind == HTMLTagOpen && s[5].kind == HTMLTagClose && s[6].kind == HTMLEndTagOpen && s[7].kind == HTMLTagClose
    && s[8].kind == HTMLTagOpen && s[9].kind == HTMLTagClose && s[10].kind == HTMLEndTagOpen && s[11].kind == HTMLTagClose
    && s[0].value == "template" && s[4].value == "script" && s[8].value == "style"
  }

  /** The nine tokens from `</template>`'s `>` on: `>`, then `<script></script>` and `<style></style>`. */
  ghost predicate AfterTemplateShape(p: seq<Token>)
  {
    && |p| == 9
    && p[0].kind == HTMLTagClose
    && p[1].kind == HTMLTagOpen && p[2].kind == HTMLTagClose && p[3].kind == HTMLEndTagOpen && p[4].kind == HTMLTagClose
    && p[5].kind == HTMLTagOpen && p[6].kind == HTMLTagClose && p[7].kind == HTMLEndTagOpen && p[8].kind == HTMLTagClose
  }

  /** The backward scan is back at level 0 on both opening tags. */
  lemma AfterTemplateDepths(p: seq<Token>)
    requires AfterTemplateShape(p)
    ensures Depth(p[5..]) == 0 && Depth(p[1..]) == 0
  {
    assert p[9..] == [];
    DepthStep(p, 8);
    DepthStep(p, 7);
    DepthStep(p, 6);
    DepthStep(p, 5);
    DepthStep(p, 4);
    DepthStep(p, 3);
    DepthStep(p, 2);
    DepthStep(p, 1);
  }

  /** From `<style` on, the backward scan collects `<style` alone. */
  lemma AfterTemplateScanTail(p: seq<Token>)
    requires AfterTemplateShape(p)
    ensures TopIndicesFrom(p, 5) == [5]
  {
    AfterTemplateDepths(p);
    assert TopIndicesFrom(p, 9) == [];
    assert TopIndicesFrom(p, 8) == [];
    assert TopIndicesFrom(p, 7) == [];
    assert TopIndicesFrom(p, 6) == [];
  }

  /** The backward scan collects `<script` and `<style`. */
  lemma AfterTemplateScan(p: seq<Token>)
    requires AfterTemplateShape(p)
    ensures TopIndicesFrom(p, 0) == [1, 5]
  {
    AfterTemplateScanTail(p);
    AfterTemplateDepths(p);
    assert TopIndicesFrom(p, 4) == [5];
    assert TopIndicesFrom(p, 3) == [5];
    assert TopIndicesFrom(p, 2) == [5];
    assert TopIndicesFrom(p, 1) == [1, 5];
  }

  /**
   * From the raw tokens: the top-level tags are `<template`, `<script` and
   * `<style`, and the one report is `<script>` before `<template>`.
   */
  lemma TemplateFirstFromTokens(s: seq<Token>)
    requires TemplateFirstShape(s)
    ensures ValidBody(TemplateBody(s, 0, 3))
    ensures Picks(s, TopLevelIndices(TemplateBody(s, 0, 3))) == [s[0], s[4], s[8]]
    ensures ExpectedReports(DefaultOrder, Picks(s, TopLevelIndices(TemplateBody(s, 0, 3)))) == [OrderReport(s[4], s[0])]
  {
    assert Shift(TopIndicesFrom(s[3..], 0), 3) == [4, 8] by {
      AfterTemplateScan(s[3..]);
    }
    assert TopIndicesBelow(s[..0], 0) == [];
    assert TopLevelIndices(TemplateBody(s, 0, 3)) == [0, 4, 8];
    TemplateBeforeScriptReported(s[0], s[4], s[8]);
  }
}
