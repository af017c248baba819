/**
 * What the monitor promises about its issue list and its report, stated
 * over the specification functions that `GenerateReport` and
 * `RunMonitoring` are proved to compute.
 */
module MonitorProperties {
  import opened PyStr
  import opened Monitor

  /** A result that raises no issue: checked, in stock, with a Kindle
      edition, and rated at least the threshold. */
  predicate Healthy(b: BookStatus, minScore: real) {
    b.Checked? && b.inStock && b.kindleAvailable && !(b.reviewScore < minScore)
  }

  /** The issues of a concatenation are the issues of its parts, in order. */
  lemma {:induction false} IssuesAppend(a: seq<BookStatus>, b: seq<BookStatus>, minScore: real, showFloat: real -> string)
    ensures Issues(a + b, minScore, showFloat) == Issues(a, minScore, showFloat) + Issues(b, minScore, showFloat)
    decreases |b|
  {
    if b == [] {
      assert a + b == a;
    } else {
      var init, last := b[..|b| - 1], b[|b| - 1];
      assert (a + b)[..|a + b| - 1] == a + init;
      assert (a + b)[|a + b| - 1] == last;
      IssuesAppend(a, init, minScore, showFloat);
      ConcatAssoc(Issues(a, minScore, showFloat), Issues(init, minScore, showFloat), IssuesOf(last, minScore, showFloat));
    }
  }

  /** The issues of one result are what `IssuesOf` gives it. */
  lemma IssuesSingle(b: BookStatus, minScore: real, showFloat: real -> string)
    ensures Issues([b], minScore, showFloat) == IssuesOf(b, minScore, showFloat)
  {
    assert [b][..0] == [];
  }

  /** Issues are grouped by result, in result order: the issues of result `i`
      sit between those of the results before it and those after it. */
  lemma IssuesGrouped(rs: seq<BookStatus>, i: nat, minScore: real, showFloat: real -> string)
    requires i < |rs|
    ensures Issues(rs, minScore, showFloat)
      == Issues(rs[..i], minScore, showFloat) + IssuesOf(rs[i], minScore, showFloat) + Issues(rs[i + 1..], minScore, showFloat)
  {
    assert rs == rs[..i] + [rs[i]] + rs[i + 1..];
    IssuesAppend(rs[..i] + [rs[i]], rs[i + 1..], minScore, showFloat);
    IssuesAppend(rs[..i], [rs[i]], minScore, showFloat);
    IssuesSingle(rs[i], minScore, showFloat);
  }

  /** Each result contributes at most three issues. */
  lemma {:induction false} IssuesBound(rs: seq<BookStatus>, minScore: real, showFloat: real -> string)
    ensures |Issues(rs, minScore, showFloat)| <= 3 * |rs|
  {
    if rs != [] {
      IssuesBound(rs[..|rs| - 1], minScore, showFloat);
    }
  }

  /** A single result raises no issue exactly when it is healthy. */
  lemma NoIssueIffHealthy(b: BookStatus, minScore: real, showFloat: real -> string)
    ensures IssuesOf(b, minScore, showFloat) == [] <==> Healthy(b, minScore)
  {
  }

  /** The issue list is empty exactly when every result is healthy. */
  lemma {:induction false} NoIssuesIffHealthy(rs: seq<BookStatus>, minScore: real, showFloat: real -> string)
    ensures Issues(rs, minScore, showFloat) == [] <==> forall i :: 0 <= i < |rs| ==> Healthy(rs[i], minScore)
  {
    if rs != [] {
      var init, last := rs[..|rs| - 1], rs[|rs| - 1];
      assert Issues(rs, minScore, showFloat) == Issues(init, minScore, showFloat) + IssuesOf(last, minScore, showFloat);
      NoIssuesIffHealthy(init, minScore, showFloat);
      NoIssueIffHealthy(last, minScore, showFloat);
      assert forall i :: 0 <= i < |init| ==> init[i] == rs[i];
    }
  }

  /** An error record contributes exactly one issue, "Error checking " and its
      title, and none of the three checks of a success record applies to it. */
  lemma FailedIssues(b: BookStatus, minScore: real, showFloat: real -> string)
    requires b.Failed?
    ensures IssuesOf(b, minScore, showFloat) == ["Error checking " + b.title]
  {
  }

  /** A success record contributes one "is out of stock" issue when it is not
      in stock and none when it is; likewise one "Kindle version unavailable"
      issue when the Kindle button is missing, and one "review score below
      threshold" issue, quoting the score, exactly when the score is strictly
      below the threshold. Nothing else. */
  lemma CheckedIssueCounts(b: BookStatus, minScore: real, showFloat: real -> string)
    requires b.Checked?
    ensures multiset(IssuesOf(b, minScore, showFloat))[OutOfStockIssue(b.title)] == (if b.inStock then 0 else 1)
    ensures multiset(IssuesOf(b, minScore, showFloat))[KindleIssue(b.title)] == (if b.kindleAvailable then 0 else 1)
    ensures multiset(IssuesOf(b, minScore, showFloat))[LowScoreIssue(b.title, showFloat(b.reviewScore))]
      == (if b.reviewScore < minScore then 1 else 0)
    ensures |IssuesOf(b, minScore, showFloat)|
      == (if b.inStock then 0 else 1) + (if b.kindleAvailable then 0 else 1) + (if b.reviewScore < minScore then 1 else 0)
  {
    var t, shown := b.title, showFloat(b.reviewScore);
    var stock := if !b.inStock then [OutOfStockIssue(t)] else [];
    var kindle := if !b.kindleAvailable then [KindleIssue(t)] else [];
    var score := if b.reviewScore < minScore then [LowScoreIssue(t, shown)] else [];
    assert IssuesOf(b, minScore, showFloat) == stock + kindle + score;
    IssueTextsDiffer(t, shown);
    assert multiset(stock + kindle + score) == multiset(stock) + multiset(kindle) + multiset(score);
  }

  /** The three issues of one success record never coincide: their texts
      differ in length. */
  lemma IssueTextsDiffer(title: string, shown: string)
    ensures OutOfStockIssue(title) != KindleIssue(title)
    ensures OutOfStockIssue(title) != LowScoreIssue(title, shown)
    ensures KindleIssue(title) != LowScoreIssue(title, shown)
  {
    assert |OutOfStockIssue(title)| == |title| + 16;
    assert |KindleIssue(title)| == |title| + 27;
    assert |LowScoreIssue(title, shown)| == |title| + 32 + |shown|;
  }

  /** Within one success record the issues come in the order stock, Kindle, score. */
  lemma CheckedIssueOrder(b: BookStatus, minScore: real, showFloat: real -> string)
    requires b.Checked?
    ensures var found := IssuesOf(b, minScore, showFloat);
      && (!b.inStock ==> found[0] == OutOfStockIssue(b.title))
      && (!b.kindleAvailable ==> found[if b.inStock then 0 else 1] == KindleIssue(b.title))
      && (b.reviewScore < minScore ==> found[|found| - 1] == LowScoreIssue(b.title, showFloat(b.reviewScore)))
  {
  }

  /** A page whose fetch raised yields the error record with the exception's
      message kept verbatim, and the single issue "Error checking Error
      checking book". */
  lemma FetchFailureIssue(url: string, message: string, parseFloat: string -> Result<real>, minScore: real, showFloat: real -> string)
    ensures CheckBookStatus(url, Raised(message), parseFloat) == Failed(ERROR_TITLE, message, url)
    ensures IssuesOf(CheckBookStatus(url, Raised(message), parseFloat), minScore, showFloat)
      == ["Error checking Error checking book"]
  {
    var issue := ErrorIssue(ERROR_TITLE);
    assert issue == "Error checking " + "Error checking book";
    assert |issue| == 34;
    forall k | 0 <= k < 34
      ensures issue[k] == "Error checking Error checking book"[k]
    {
    }
    assert issue == "Error checking Error checking book";
    var r := CheckBookStatus(url, Raised(message), parseFloat);
    assert r == Failed(ERROR_TITLE, message, url);
    assert IssuesOf(r, minScore, showFloat) == [issue];
  }

  /** A rating whose leading token `float()` rejects makes the whole record
      the error record; the score is never defaulted to 0.0 in that case. */
  lemma UnparsableRatingIsError(url: string, page: Page, parseFloat: string -> Result<real>)
    requires page.reviewText.Some? && parseFloat(LeadingToken(page.reviewText.value)).Err?
    ensures CheckBookStatus(url, Fetched(page), parseFloat)
      == Failed(ERROR_TITLE, parseFloat(LeadingToken(page.reviewText.value)).message, url)
  {
  }

  /** The body of a concatenation is the bodies of its parts, in order. */
  lemma {:induction false} BodyAppend(a: seq<BookStatus>, b: seq<BookStatus>, showFloat: real -> string)
    ensures Body(a + b, showFloat) == Body(a, showFloat) + Body(b, showFloat)
    decreases |b|
  {
    if b == [] {
      assert a + b == a;
    } else {
      var init, last := b[..|b| - 1], b[|b| - 1];
      assert (a + b)[..|a + b| - 1] == a + init;
      assert (a + b)[|a + b| - 1] == last;
      BodyAppend(a, init, showFloat);
      ConcatAssoc(Body(a, showFloat), Body(init, showFloat), Block(last, showFloat));
    }
  }

  /** The report body holds the block of every result, in result order: the
      block of result `i` starts right after the blocks of the results
      before it. */
  lemma BodyHasBlock(rs: seq<BookStatus>, i: nat, showFloat: real -> string)
    requires i < |rs|
    ensures OccursAt(Body(rs, showFloat), Block(rs[i], showFloat), |Body(rs[..i], showFloat)|)
  {
    SplitAt(rs, i);
    var before, block, after := Body(rs[..i], showFloat), Block(rs[i], showFloat), Body(rs[i + 1..], showFloat);
    BodyAppend(rs[..i] + [rs[i]], rs[i + 1..], showFloat);
    BodyAppend(rs[..i], [rs[i]], showFloat);
    BodySingle(rs[i], showFloat);
    assert Body(rs, showFloat) == before + block + after;
    SliceOfConcat(before, block, after);
  }

  /** The report names every result: where its block starts, the body reads
      "Book: " and its title, then "URL: " and its url. */
  lemma BodyNamesBook(rs: seq<BookStatus>, i: nat, showFloat: real -> string)
    requires i < |rs|
    ensures OccursAt(Body(rs, showFloat), Head(rs[i]), |Body(rs[..i], showFloat)|)
  {
    BodyHasBlock(rs, i, showFloat);
    OccursAtPrefix(Body(rs, showFloat), Block(rs[i], showFloat), Head(rs[i]), |Body(rs[..i], showFloat)|);
  }

  lemma SplitAt(rs: seq<BookStatus>, i: nat)
    requires i < |rs|
    ensures rs == rs[..i] + [rs[i]] + rs[i + 1..]
  {
  }

  /** Wherever a string occurs, so does each of its prefixes. */
  lemma OccursAtPrefix(text: string, pat: string, prefix: string, at: nat)
    requires OccursAt(text, pat, at)
    requires |prefix| <= |pat| && pat[..|prefix|] == prefix
    ensures OccursAt(text, prefix, at)
  {
  }

  /** The body for a single result is that result's block. */
  lemma BodySingle(b: BookStatus, showFloat: real -> string)
    ensures Body([b], showFloat) == Block(b, showFloat)
  {
    assert [b][..0] == [];
  }

  /** Two books, both checked, in stock, with a Kindle edition and rated at
      least the threshold: no issue at all, a body of their two blocks in
      order, and each block's stock line reads "In Stock: Yes". */
  lemma TwoHealthyBooks(a: BookStatus, b: BookStatus, minScore: real, showFloat: real -> string)
    requires Healthy(a, minScore) && Healthy(b, minScore)
    ensures Issues([a, b], minScore, showFloat) == []
    ensures Body([a, b], showFloat) == Block(a, showFloat) + Block(b, showFloat)
    ensures ThirdLine(a) == "In Stock: Yes\n" && ThirdLine(b) == "In Stock: Yes\n"
  {
    assert Line("In Stock: ", YesNo(true)) == "In Stock: Yes\n";
    assert Issues([a, b], minScore, showFloat) == [] by {
      NoIssuesIffHealthy([a, b], minScore, showFloat);
    }
    assert Body([a, b], showFloat) == Block(a, showFloat) + Block(b, showFloat) by {
      assert [a] + [b] == [a, b];
      BodyAppend([a], [b], showFloat);
      BodySingle(a, showFloat);
      BodySingle(b, showFloat);
    }
  }
}
