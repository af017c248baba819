/**
 * The decision logic of `AmazonBookMonitor` (monitor.py): classifying one
 * product page, deriving the report text and the issue list from the
 * per-book results, and one monitoring run that decides whether to email.
 *
 * The outside world enters as parameters: the outcome of each HTTP request
 * (already reduced to what the four HTML lookups find), Python's `float()`
 * on the rating token, `str()` of a float, and the clock reading in the
 * report header. Sending mail is the `sent` out-parameter of `RunMonitoring`.
 */
module Monitor {
  import opened PyStr

  datatype Option<T> = None | Some(value: T)

  /** A value, or the message of the exception that replaced it. */
  datatype Result<T> = Ok(value: T) | Err(message: string)

  /** What the four lookups on one parsed product page find. */
  datatype Page = Page(
    productTitle: Option<string>,  // text of <span id="productTitle">
    availability: Option<string>,  // text of <div id="availability">
    kindleButton: bool,            // whether an <a id="kindle-button"> exists
    reviewText: Option<string>)    // text of the first <span class="a-icon-alt">

  /** The outcome of fetching and parsing one URL: the page, or the message
      of the exception `requests.get` or the HTML parser raised. A response
      with a non-2xx status raises nothing and is parsed like any other. */
  datatype Response = Fetched(page: Page) | Raised(message: string)

  /** One entry of `results`: the success record, or the error record. */
  datatype BookStatus =
    | Checked(title: string, inStock: bool, kindleAvailable: bool, reviewScore: real, url: string)
    | Failed(title: string, error: string, url: string)

  /** The mail server settings; only `send_email` reads them, and that
      function is not part of this model. */
  datatype Smtp = Smtp(server: string, port: int, email: string, password: string)

  /** The configuration file's contents, read once and never changed. */
  datatype Config = Config(
    bookUrls: seq<string>,
    smtp: Smtp,
    emailRecipients: seq<string>,
    minReviewScore: real,
    sendDailyReport: bool)

  /** The message handed to the mail server. */
  datatype Email = Email(subject: string, body: string, recipients: seq<string>)

  const UNKNOWN_TITLE := "Unknown Title"
  const ERROR_TITLE := "Error checking book"
  const IN_STOCK := "In Stock"
  const ISSUES_SUBJECT := "Amazon Book Status - Issues Found"
  const REPORT_SUBJECT := "Amazon Book Status Report"

  /** `check_book_status`: every field has its own default, and the only
      failures are an exception from the request or the parser and a rating
      token `float()` rejects; either turns the whole record into the error
      record. */
  function CheckBookStatus(url: string, response: Response, parseFloat: string -> Result<real>): (r: BookStatus)
    ensures r.url == url
    ensures r.Failed? <==>
      || response.Raised?
      || (response.page.reviewText.Some? && parseFloat(LeadingToken(response.page.reviewText.value)).Err?)
    ensures r.Failed? ==> r.title == ERROR_TITLE
    ensures response.Raised? ==> r.error == response.message
    ensures response.Fetched? && r.Failed? ==>
      r.error == parseFloat(LeadingToken(response.page.reviewText.value)).message
    ensures r.Checked? ==> var page := response.page;
      && (page.productTitle.None? ==> r.title == UNKNOWN_TITLE)
      && (page.productTitle.Some? ==> r.title == Strip(page.productTitle.value))
      && (r.inStock <==> page.availability.Some? && exists i: nat :: OccursAt(page.availability.value, IN_STOCK, i))
      && r.kindleAvailable == page.kindleButton
      && (page.reviewText.None? ==> r.reviewScore == 0.0)
      && (page.reviewText.Some? ==> Ok(r.reviewScore) == parseFloat(LeadingToken(page.reviewText.value)))
  {
    match response
    case Raised(message) => Failed(ERROR_TITLE, message, url)
    case Fetched(page) =>
      var title := if page.productTitle.Some? then Strip(page.productTitle.value) else UNKNOWN_TITLE;
      var inStock := InStock(page.availability);
      var kindleAvailable := page.kindleButton;
      var score := if page.reviewText.Some? then parseFloat(LeadingToken(page.reviewText.value)) else Ok(0.0);
      match score
      case Err(message) => Failed(ERROR_TITLE, message, url)
      case Ok(reviewScore) => Checked(title, inStock, kindleAvailable, reviewScore, url)
  }

  /** The availability verdict: an availability element whose text contains "In Stock". */
  function InStock(availability: Option<string>): (r: bool)
    ensures r <==> availability.Some? && exists i: nat :: OccursAt(availability.value, IN_STOCK, i)
  {
    match availability
    case None => false
    case Some(text) => ContainsIff(text, IN_STOCK); Contains(text, IN_STOCK)
  }

  function ErrorIssue(title: string): string { "Error checking " + title }
  function OutOfStockIssue(title: string): string { title + " is out of stock" }
  function KindleIssue(title: string): string { title + " Kindle version unavailable" }
  function LowScoreIssue(title: string, shownScore: string): string {
    title + " review score below threshold (" + shownScore + ")"
  }

  /** The issues one result adds to the list, in the order the checks run. */
  function IssuesOf(b: BookStatus, minScore: real, showFloat: real -> string): (r: seq<string>)
    ensures |r| <= 3
  {
    match b
    case Failed(title, _, _) => [ErrorIssue(title)]
    case Checked(title, inStock, kindleAvailable, score, _) =>
      (if !inStock then [OutOfStockIssue(title)] else [])
      + (if !kindleAvailable then [KindleIssue(title)] else [])
      + (if score < minScore then [LowScoreIssue(title, showFloat(score))] else [])
  }

  /** The issue list for a sequence of results: each result's issues, in result order. */
  function Issues(rs: seq<BookStatus>, minScore: real, showFloat: real -> string): seq<string>
  {
    if rs == [] then []
    else Issues(rs[..|rs| - 1], minScore, showFloat) + IssuesOf(rs[|rs| - 1], minScore, showFloat)
  }

  function YesNo(b: bool): string { if b then "Yes" else "No" }

  /** One line of the report, as one f-string of `generate_report` renders it:
      a key, a value and a newline. */
  function Line(key: string, value: string): string { key + value + "\n" }

  /** The first two lines of a result's block: its title and its URL. */
  function Head(b: BookStatus): string {
    Line("Book: ", b.title) + Line("URL: ", b.url)
  }

  /** The third line of a result's block: the error message of an error
      record, the stock verdict of a success record. */
  function ThirdLine(b: BookStatus): string {
    if b.Failed? then Line("Error: ", b.error) else Line("In Stock: ", YesNo(b.inStock))
  }

  /** The fourth line of a success record's block: whether a Kindle edition is offered. */
  function KindleLine(b: BookStatus): string
    requires b.Checked?
  {
    Line("Kindle Available: ", YesNo(b.kindleAvailable))
  }

  /** The fifth line of a success record's block: the rendered review score. */
  function ScoreLine(b: BookStatus, showFloat: real -> string): string
    requires b.Checked?
  {
    Line("Review Score: ", showFloat(b.reviewScore))
  }

  /** The block of report text for one result. It starts with the book's
      title and URL and goes on with the error message or the stock verdict.
      A success block then has its Kindle line and its score line; an error
      block has nothing more. Every block ends with an empty line. */
  function Block(b: BookStatus, showFloat: real -> string): (r: string)
    ensures |Head(b)| + |ThirdLine(b)| < |r|
    ensures r[..|Head(b)|] == Head(b)
    ensures r[|Head(b)|..|Head(b)| + |ThirdLine(b)|] == ThirdLine(b)
    ensures b.Failed? ==> |r| == |Head(b)| + |ThirdLine(b)| + 1
    ensures b.Checked? ==>
      |r| == |Head(b)| + |ThirdLine(b)| + |KindleLine(b)| + |ScoreLine(b, showFloat)| + 1
    ensures b.Checked? ==>
      r[|Head(b)| + |ThirdLine(b)|..|Head(b)| + |ThirdLine(b)| + |KindleLine(b)|] == KindleLine(b)
    ensures b.Checked? ==>
      r[|Head(b)| + |ThirdLine(b)| + |KindleLine(b)|..|r| - 1] == ScoreLine(b, showFloat)
    ensures r[|r| - 2..] == "\n\n"
  {
    if b.Checked? then
      LineEnds("Review Score: ", showFloat(b.reviewScore));
      Assemble(Head(b), ThirdLine(b), KindleLine(b), ScoreLine(b, showFloat))
    else
      LineEnds("Error: ", b.error);
      Assemble(Head(b), ThirdLine(b), "", "")
  }

  /** Every line ends with a newline. */
  lemma LineEnds(key: string, value: string)
    ensures Line(key, value) != [] && Line(key, value)[|Line(key, value)| - 1] == '\n'
  {
  }

  /** Lines `h`, `t`, `k` and `s` in that order, then an empty line: each
      piece at its offset, and the character before the final newline is the
      last one of the last non-empty piece. */
  function Assemble(h: string, t: string, k: string, s: string): (r: string)
    ensures |r| == |h| + |t| + |k| + |s| + 1
    ensures r[..|h|] == h
    ensures r[|h|..|h| + |t|] == t
    ensures r[|h| + |t|..|h| + |t| + |k|] == k
    ensures r[|h| + |t| + |k|..|r| - 1] == s
    ensures r[|r| - 1] == '\n'
    ensures s != [] ==> r[|r| - 2] == s[|s| - 1]
    ensures s == [] && k == [] && t != [] ==> r[|r| - 2] == t[|t| - 1]
  {
    h + t + (k + s) + "\n"
  }

  /** The two leading pieces of a concatenation can be sliced back out. */
  lemma SliceOfConcat(x: string, y: string, z: string)
    ensures (x + y + z)[..|x|] == x
    ensures (x + y + z)[|x|..|x| + |y|] == y
  {
  }

  /** The report text after its header line: one block per result, in order. */
  function Body(rs: seq<BookStatus>, showFloat: real -> string): string
  {
    if rs == [] then ""
    else Body(rs[..|rs| - 1], showFloat) + Block(rs[|rs| - 1], showFloat)
  }

  /** The report's first line and the empty line after it; `stamp` is the
      formatted clock reading. */
  function Header(stamp: string): string {
    "Amazon Book Status Report - " + stamp + "\n\n"
  }

  /** The body of `generate_report`'s loop for one result: the lines it
      appends to the report and the issues it appends to the list, in the
      order `generate_report` appends them. */
  method DescribeBook(book: BookStatus, minScore: real, showFloat: real -> string)
    returns (text: string, found: seq<string>)
    ensures text == Block(book, showFloat)
    ensures found == IssuesOf(book, minScore, showFloat)
  {
    text := Line("Book: ", book.title);
    text := text + Line("URL: ", book.url);
    found := [];
    if book.Failed? {
      text := text + Line("Error: ", book.error);
      assert text + "\n" == Assemble(Head(book), ThirdLine(book), "", "") by {
        assert Head(book) + ThirdLine(book) + ("" + "") == text;
      }
      found := found + [ErrorIssue(book.title)];
    } else {
      text := text + Line("In Stock: ", YesNo(book.inStock));
      text := text + Line("Kindle Available: ", YesNo(book.kindleAvailable));
      ConcatAssoc(Head(book) + ThirdLine(book), Line("Kindle Available: ", YesNo(book.kindleAvailable)),
        Line("Review Score: ", showFloat(book.reviewScore)));
      text := text + Line("Review Score: ", showFloat(book.reviewScore));
      assert text + "\n" == Assemble(Head(book), ThirdLine(book), KindleLine(book), ScoreLine(book, showFloat));
      if !book.inStock {
        found := found + [OutOfStockIssue(book.title)];
      }
      if !book.kindleAvailable {
        found := found + [KindleIssue(book.title)];
      }
      if book.reviewScore < minScore {
        found := found + [LowScoreIssue(book.title, showFloat(book.reviewScore))];
      }
    }
    text := text + "\n";
  }

  /** `generate_report`: one pass over the results that grows the report
      text and the issue list together. */
  method GenerateReport(results: seq<BookStatus>, minScore: real, stamp: string, showFloat: real -> string)
    returns (report: string, issues: seq<string>)
    ensures report == Header(stamp) + Body(results, showFloat)
    ensures issues == Issues(results, minScore, showFloat)
  {
    report := Header(stamp);
    issues := [];
    for i := 0 to |results|
      invariant report == Header(stamp) + Body(results[..i], showFloat)
      invariant issues == Issues(results[..i], minScore, showFloat)
    {
      var text, found := DescribeBook(results[i], minScore, showFloat);
      ExtendPrefix(results, i, minScore, showFloat);
      ConcatAssoc(Header(stamp), Body(results[..i], showFloat), text);
      report := report + text;
      issues := issues + found;
    }
    assert results[..|results|] == results;
  }

  /** Concatenation is associative; stated once so that proofs about the
      growing report and issue list can regroup their pieces in one step. */
  lemma ConcatAssoc<T>(a: seq<T>, b: seq<T>, c: seq<T>)
    ensures (a + b) + c == a + (b + c)
  {
  }

  /** Processing one more result appends its block to the body and its issues to the list. */
  lemma ExtendPrefix(rs: seq<BookStatus>, i: nat, minScore: real, showFloat: real -> string)
    requires i < |rs|
    ensures Body(rs[..i + 1], showFloat) == Body(rs[..i], showFloat) + Block(rs[i], showFloat)
    ensures Issues(rs[..i + 1], minScore, showFloat) == Issues(rs[..i], minScore, showFloat) + IssuesOf(rs[i], minScore, showFloat)
  {
    assert rs[..i + 1][..i] == rs[..i];
  }

  /** `run_monitoring`: check every configured URL in order, build the report,
      and send it when there are issues or a daily report is configured.
      `fetch(i, url)` is what the i-th request of the run returned. */
  method RunMonitoring(
    config: Config,
    fetch: (nat, string) -> Response,
    parseFloat: string -> Result<real>,
    showFloat: real -> string,
    stamp: string)
    returns (results: seq<BookStatus>, report: string, issues: seq<string>, sent: Option<Email>)
    ensures |results| == |config.bookUrls|
    ensures forall i :: 0 <= i < |results| ==>
      results[i] == CheckBookStatus(config.bookUrls[i], fetch(i, config.bookUrls[i]), parseFloat)
    ensures forall i :: 0 <= i < |results| ==> results[i].url == config.bookUrls[i]
    ensures report == Header(stamp) + Body(results, showFloat)
    ensures issues == Issues(results, config.minReviewScore, showFloat)
    ensures sent.Some? <==> issues != [] || config.sendDailyReport
    ensures sent.Some? ==> (sent.value.subject == ISSUES_SUBJECT <==> issues != [])
    ensures sent.Some? ==> (sent.value.subject == REPORT_SUBJECT <==> issues == [])
    ensures sent.Some? ==> sent.value.body == report && sent.value.recipients == config.emailRecipients
  {
    results := [];
    for i := 0 to |config.bookUrls|
      invariant |results| == i
      invariant forall j :: 0 <= j < i ==>
        results[j] == CheckBookStatus(config.bookUrls[j], fetch(j, config.bookUrls[j]), parseFloat)
    {
      var url := config.bookUrls[i];
      results := results + [CheckBookStatus(url, fetch(i, url), parseFloat)];
    }
    report, issues := GenerateReport(results, config.minReviewScore, stamp, showFloat);
    if issues != [] || config.sendDailyReport {
      var subject := if issues != [] then ISSUES_SUBJECT else REPORT_SUBJECT;
      sent := Some(Email(subject, report, config.emailRecipients));
    } else {
      sent := None;
    }
  }
}
