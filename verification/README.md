# Amazon book monitor — a Dafny model of its decision logic

`monitor.py` checks a configured list of Amazon product pages, one per book, and
emails a report. For each URL it fetches the page and reads four things from it:
the product title, the availability text, whether a Kindle button exists, and the
rating text. It turns these into a success record, or into an error record when
anything raises. From all records it builds a text report and an ordered list of
issues: a fetch error, out of stock, no Kindle edition, or a review score below the
configured minimum. It sends the report when there are issues or when a daily
report is configured, and the subject says whether issues were found.

This project models that logic and proves what it promises:

- `pystr.dfy` (module `PyStr`): the three Python string operations the
  classification depends on. These are `str.strip()`, `s.split(' ')[0]` and
  `pat in text`. The first two are characterised completely by their
  contracts, and `Contains` by the lemma `ContainsIff`.
- `monitor.dfy` (module `Monitor`): the records, `check_book_status` as the pure
  function `CheckBookStatus`, and `generate_report` and `run_monitoring` as
  methods with loops. The loop invariants tie the growing report, issue list
  and result list to specification functions over the processed prefix.
- `properties.dfy` (module `MonitorProperties`): lemmas over those
  specification functions. They cover what each kind of result contributes to
  the issue list, the grouping and order of issues, the bound of three issues
  per result, the fact that no issues means all results are healthy, and the
  layout of the report body.

The outside world enters as parameters:

- `fetch(i, url)` is the outcome of the i-th request of a run. It is either
  the page as the four lookups see it, or the message of the exception raised.
- `parseFloat` is Python's `float()` applied to the rating token. It gives
  either a number or the message of the exception.
- `showFloat` is `str()` of a float.
- `stamp` is the formatted clock reading in the report's header line.
- The email that `run_monitoring` sends is the out-parameter `sent` of
  `RunMonitoring`.

## Behaviour worth noting

- A rating whose leading token `float()` rejects makes the whole record the
  error record, because monitor.py:41 raises inside the `try`. The 0.0
  default applies only when the rating element is missing. A rating that
  parses to 0.0 also gives 0.0, so the report cannot tell the two apart.
- A response with a non-2xx status raises nothing. Its page is parsed like any
  other (monitor.py:24 never checks the status).
- A missing Kindle edition is reported as "<title> Kindle version
  unavailable" (monitor.py:92).
- Recipients are kept as the ordered list the configuration gives
  (monitor.py:61 joins them in order).

## Model

| member | source | states |
|---|---|---|
| PyStr.Strip | monitor.py:29 | `str.strip()`: the result is the slice of the input that starts at the first non-space character; it neither starts nor ends with whitespace, and everything cut off on either side is whitespace (exactly Python's `str.isspace()` characters) |
| PyStr.StripOfStripped | monitor.py:29 | a title with no surrounding whitespace is kept unchanged |
| PyStr.LeadingToken | monitor.py:41 | `split(' ')[0]` is the longest prefix without a space: it contains no space, and it is the whole text or is followed by a space |
| PyStr.ContainsIff | monitor.py:33 | the substring test is true exactly when the pattern occurs at some position of the text |
| Monitor.InStock | monitor.py:32-33 | in stock exactly when an availability element exists and "In Stock" occurs in its text; a missing element means not in stock |
| Monitor.CheckBookStatus | monitor.py:21-55 | the record always carries its own url. It is the error record exactly when the request or the HTML parser raised, or when a rating exists and `float()` rejects its leading token. The error record has the title "Error checking book" and the exception's message. Otherwise: a missing title gives "Unknown Title", else the stripped title; in stock as for `InStock`; Kindle available equals the button's presence; a missing rating gives 0.0, else the parsed leading token |
| Monitor.IssuesOf | monitor.py:80-94 | one result contributes at most three issues |
| Monitor.Block | monitor.py:77-96 | a result's block is fully laid out. Its first two lines are "Book: title" and "URL: url". Its third line is "Error: message" for an error record and "In Stock: Yes/No" for a success record. An error block has nothing after that line but the closing empty line. A success block goes on with "Kindle Available: Yes/No" and "Review Score: score", each at its offset, and then the empty line. Every block ends in "\n\n" |
| Monitor.DescribeBook | monitor.py:77-96 | one pass of the loop body appends exactly the result's block to the report and exactly its issues to the list |
| Monitor.ExtendPrefix | monitor.py:76 | processing one more result appends its block to the body and its issues to the list |
| Monitor.GenerateReport | monitor.py:71-98 | the report is the header followed by every result's block in order. The issue list is every result's issues in result order |
| Monitor.RunMonitoring | monitor.py:100-112 | one result per configured URL, in the same order, each carrying its own url and classified from that URL's response. The report and issues are those of `GenerateReport`. An email is sent iff the issue list is non-empty or `send_daily_report` holds. Its subject is "Amazon Book Status - Issues Found" iff there are issues, and "Amazon Book Status Report" iff there are none. Its body is the report and its recipients are the configured ones |
| MonitorProperties.IssuesAppend | monitor.py:75-94 | the issues of two result lists joined are the issues of the first followed by those of the second |
| MonitorProperties.IssuesSingle | monitor.py:76-94 | a single result's issue list is its own contribution |
| MonitorProperties.IssuesGrouped | monitor.py:75-94 | the issues of result i sit between those of the results before it and those after it |
| MonitorProperties.IssuesBound | monitor.py:75-94 | the issue list has at most three entries per result |
| MonitorProperties.NoIssueIffHealthy | monitor.py:80-94 | one result raises no issue exactly when it is a success record that is in stock, has a Kindle edition and has a score not below the threshold |
| MonitorProperties.NoIssuesIffHealthy | monitor.py:75-94 | the issue list is empty exactly when every result is a success record that is in stock, has a Kindle edition and has a score not below the threshold |
| MonitorProperties.FailedIssues | monitor.py:80-82 | an error record contributes exactly one issue, "Error checking " + its title, and none of the stock, Kindle or score issues |
| MonitorProperties.CheckedIssueCounts | monitor.py:88-94 | a success record contributes exactly one "is out of stock" issue when not in stock and none otherwise, and likewise one "Kindle version unavailable" issue. It contributes exactly one "review score below threshold (score)" issue iff its score is strictly below the threshold, so a score equal to the threshold raises none. Nothing else |
| MonitorProperties.IssueTextsDiffer | monitor.py:90-94 | the out-of-stock, Kindle and low-score issue texts of one title are pairwise different |
| MonitorProperties.CheckedIssueOrder | monitor.py:88-94 | within one success record the issues come in the order stock, Kindle, score |
| MonitorProperties.FetchFailureIssue | monitor.py:50-55 | a request that raised gives the error record with the message kept verbatim, and the single issue "Error checking Error checking book" |
| MonitorProperties.UnparsableRatingIsError | monitor.py:41 | a rating token that `float()` rejects gives the error record carrying `float()`'s message, never a 0.0 score |
| MonitorProperties.BodyAppend | monitor.py:76-96 | the report body of two result lists joined is the body of the first followed by that of the second |
| MonitorProperties.BodySingle | monitor.py:76-96 | the body for a single result is its block |
| MonitorProperties.BodyHasBlock | monitor.py:76-96 | the block of result i occurs in the body at the offset where the blocks of the results before it end |
| MonitorProperties.BodyNamesBook | monitor.py:77-78 | the report names every result: at the offset of its block the body reads "Book: title" and then "URL: url" |
| MonitorProperties.TwoHealthyBooks | monitor.py:75-98 | two healthy books give no issues; the body is their two blocks in order, and each stock line reads "In Stock: Yes" |

## Left out

- HTTP fetching with `requests.get` and its User-Agent header (monitor.py:17-19, 24): network I/O. The outcome of each request is the parameter `fetch`. The model says nothing about which exceptions the library raises or what their messages are.
- HTML parsing with BeautifulSoup (monitor.py:25, 28, 32, 36, 40): a foreign library. A page is the record of what the four lookups find. That includes the `.text` of each element and whether the Kindle button exists.
- `float()` on the rating token and `str()` of a float (monitor.py:41, 86, 94): floating point. Scores are `real`; parsing and rendering are the parameters `parseFloat` and `showFloat`. NaN and infinite scores cannot be represented. In Python a NaN score is never below the threshold, so it raises no score issue.
- `send_email` (monitor.py:57-69): SMTP and MIME, which are network I/O. The model records only the message that would be sent: subject, body and recipients. An exception while sending ends the run. Sending is the run's last step, so nothing else in the model depends on it.
- `__init__` (monitor.py:12-19): reading the JSON configuration file is file I/O. The configuration is the immutable `Config` value.
- `sleep(2)` after each request, including the last one and so before `generate_report` runs (monitor.py:103-105): timing only. The model orders the requests and does not model time.
- The clock reading in the report's first line (monitor.py:73): it is the parameter `stamp`, and no property depends on it.
- `fetch` is a function of the request's position and its URL. Two runs over the same configuration therefore see the same responses; only one run is modelled.
- `Config` always holds every key. In the source a missing key raises `KeyError` only when it is read. `min_review_score` is read only for a success record. `send_daily_report` is read only when the issue list is empty, because `or` short-circuits (monitor.py:110). The source also tests `send_daily_report` for truthiness; the model takes it as a boolean.
