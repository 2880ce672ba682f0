# AI test-case generator: locator generation, test execution and the client workflow

This project models the logic core of a small web tool. The tool takes a site URL, lets a
Python/Selenium script find the page's interactive elements and build one XPath locator for
each, exercises every located element, and writes one JSON result record per XPath. A React
component triggers that run, polls for the results file and lists the records. It can also
preview a screenshot of the site.

The model has five modules:

- `Wrappers` (`wrappers.dfy`): `Option`, which stands for Python's `None` and JavaScript's `null`/`undefined`.
- `Strings` (`strings.dfy`): the Python string operations the locator builder uses. These are:
  - `str.strip()` over the full `str.isspace()` character set;
  - slicing `[:20]`;
  - `replace('"', '\\"')`;
  - `split(' ')[0]`;
  - `lower()`;
  - the decimal rendering of an index in an f-string.
- `XPaths` (`xpaths.dfy`): `generate_suitable_xpaths`.
  - The browser is a function `find` from a tag name to the list of elements found for it. Each element is either the attribute values read from it or a read that raised.
  - The nested loops are a `method` with loop invariants. They are proved against the recursive specification functions `Gather` and `Collect`.
  - The per-element choice is `ChooseLocator`. The string written for it is `Render`.
- `Execution` (`execution.dfy`): `classify_element`, and the result loop of `main`.
  - The per-XPath browser interaction is an `Outcome` given for each position. It is either the element found, with its tag, type, visibility, enabled state, outer HTML and the error its action raised (if any), or the message of the exception raised while locating or reading it.
  - The loop is a `method` that updates each record step by step, with the source's `continue`. It is proved equal, record by record, to the function `RecordFor`.
- `Workflow` (`workflow.dfy`): the `TestCaseGenerator` component shared by `client/src/components/New.jsx` and `client/src/components/Test.jsx`.
  - It is a class whose fields are the component state, plus a `trace` of the requests sent and the delays waited, each with a snapshot of the busy flags at that moment.
  - The trigger's settlement, the reply to each poll attempt and the screenshot reply are parameters.
  - The poll loop is a `method` with a `while` loop and `break`. It is proved against the recursive function `Poll`.
  - The main pane and the downloaded suite text are functions of the state.

Both React files have the same `generateTestCases` and `fetchScreenshot`; they differ only in the local variable's name (`tests` or `testCases`). One class therefore models both. The table cites `New.jsx`; the same members also model `Test.jsx`'s `generateTestCases` (lines 24-61, poll loop 40-51) and `fetchScreenshot` (lines 79-99). The suite join exists only in `Test.jsx`.

## Model

| member | source | states |
|---|---|---|
| Strings.LeadingRun | server/test.py:22 | every character `strip()` removes at the front is whitespace |
| Strings.LeadingStop | server/test.py:22 | the leading whitespace run ends at the first non-whitespace character |
| Strings.TrailingRun | server/test.py:22 | every character `strip()` removes at the back is whitespace |
| Strings.TrailingStop | server/test.py:22 | the trailing whitespace run ends at the last non-whitespace character |
| Strings.StripEmpty | server/test.py:22 | the stripped text is empty exactly when the text is all whitespace, so `elif text_content` is false exactly then |
| Strings.StripSlice | server/test.py:22 | a non-empty stripped text is the slice of the text right after its leading whitespace, and starts and ends with a non-space character |
| Strings.StripRemoved | server/test.py:22 | everything before and after that slice is whitespace |
| Strings.Take | server/test.py:34 | `text[:20]` is a prefix of at most 20 characters; it has exactly 20 when the text is longer and is the whole text otherwise |
| Strings.EscapeQuotes | server/test.py:34 | after `replace('"', '\\"')`, every double quote has a backslash right before it |
| Strings.UnescapeEscape | server/test.py:34 | escaping loses nothing: removing the inserted backslashes gives back the snippet |
| Strings.FirstToken | server/test.py:31 | `split(' ')[0]` is a prefix without spaces that ends at the first space or at the end |
| Strings.Decimal | server/test.py:37 | the rendered index is a non-empty digit string without a leading zero |
| Strings.DecimalRoundTrip | server/test.py:37 | the rendered index reads back as the index |
| Strings.DecimalInjective | server/test.py:37 | distinct indices render as distinct strings |
| Strings.Lower | server/test.py:47 | `lower()` on ASCII: the length is kept, no capital letter remains, each capital becomes its small letter (32 code points up) and every other character is unchanged |
| Strings.LowerIdempotent | server/test.py:47 | lower-casing an already lower-cased tag changes nothing |
| XPaths.LocatorPriority | server/test.py:24-37 | the locator's rank is the first non-empty candidate among id, name, aria-label, class and stripped text; the positional form is used if and only if all five are empty or `None` |
| XPaths.AttributeLocators | server/test.py:24-29 | id, name and aria-label locators carry that attribute's value unchanged |
| XPaths.ClassLocator | server/test.py:30-32 | the class locator holds only the first space-separated token of the class attribute |
| XPaths.TextLocator | server/test.py:33-35 | the text locator holds `text_content[:20]` of the stripped text (all of it when shorter than 20 characters, exactly 20 otherwise), with every `"` preceded by a backslash; the model's inverse `Unescape` gives back exactly that prefix |
| XPaths.PositionalIndex | server/test.py:36-37 | the positional locator holds the element's 1-based index within its tag's list |
| XPaths.PositionalDistinct | server/test.py:37 | `(//tag)[m]` and `(//tag)[n]` are equal if and only if `m == n` |
| XPaths.GatherStep | server/test.py:15-42 | each element of a tag's list appends its XPath when its reads succeed, and nothing when they raise |
| XPaths.GatherMembers | server/test.py:15-42 | a tag's list yields one XPath per element whose reads did not raise, and its members are exactly those elements' XPaths |
| XPaths.CollectMembers | server/test.py:13-42 | across the scanned tags, the collected XPaths are exactly those built for elements whose reads did not raise |
| XPaths.Distinct | server/test.py:44 | `list(set(...))` has no duplicates and the same members as its input |
| XPaths.GenerateSuitableXpaths | server/test.py:9-44 | the nested loops over the tags `input, button, a, textarea, select` and their elements produce the collected list; the result has no duplicates, and a string is in it if and only if it is the XPath built for some element of some scanned tag whose reads did not raise |
| Execution.ClassifyElement | server/test.py:46-54 | `form_input` if and only if the lower-cased tag is `input` or `textarea` and the type is text, email, password or absent; `clickable` if and only if it is `button`, `a` or `select`, so an input of another type falls to `unknown` |
| Execution.ClassifyCaseInsensitive | server/test.py:47 | the classification does not depend on the tag name's letter case |
| Execution.RecordFor | server/test.py:79-118 | each record keeps its index and XPath and never keeps `Not Executed`; the status is `Skipped (Invisible or Disabled)`, `Skipped (Unknown Element Type)`, `Success (Form Input Filled)`, `Success (Clicked Element)` or `Failure` exactly under the source's conditions; `error` is set if and only if the status is `Failure`, and then holds the exception message; the prediction is set exactly for a visible, enabled element and is then `classify_element` of it; the outer HTML is set exactly when the element was found and is then its outer HTML |
| Execution.RunTests | server/test.py:76-120 | one record per XPath, in order, with `index` = position + 1; the i-th record is `RecordFor` of the i-th XPath and its outcome; none is left `Not Executed`; `error` is set exactly on failures |
| Workflow.PollEnds | client/src/components/New.jsx:28-38 | the loop breaks at the first attempt whose reply is ok with a non-empty array and keeps that array, stops at the first reply that throws, and otherwise runs all 30 attempts with the result still empty; every earlier reply let the loop go on |
| Workflow.PollFirstHit | client/src/components/New.jsx:29-37 | a first hit at attempt k, with every earlier reply continuing the loop, ends the loop at attempt k with that array |
| Workflow.PollRunsOut | client/src/components/New.jsx:29-38 | replies that never hit and never throw run the loop out with an empty result |
| Workflow.PollThrowsAt | client/src/components/New.jsx:29-38 | an exception at attempt k, with every earlier reply continuing the loop, ends the loop at attempt k |
| Workflow.GenerationResult | client/src/components/Test.jsx:40-53 | at most 30 polls are made; the final list is empty or is the non-empty array of the last attempt made, and no earlier attempt was a hit |
| Workflow.GenerationFirstHit | client/src/components/New.jsx:29-39 | a first non-empty ok reply at attempt k means exactly k polls, and the list is that reply's array |
| Workflow.GenerationExhausted | client/src/components/New.jsx:28-39 | if no attempt breaks and none throws, 30 polls are made and the list stays empty |
| Workflow.GenerationThrows | client/src/components/New.jsx:19-43 | an exception at poll attempt k stops polling after k polls and empties the list |
| Workflow.PollRequests | client/src/components/New.jsx:30-33 | n attempts send 2n entries: a delay and a results request for each |
| Workflow.PollRequestsShape | client/src/components/New.jsx:30-33 | each attempt is a 6000 ms delay followed by the results request |
| Workflow.PollResults | client/src/components/New.jsx:28-38 | the loop makes `PollCount` polls, at most 30, and sends exactly the delays and requests of `PollRequests`; it reports an exception exactly when `Poll` ends by throwing, and otherwise leaves the array `FinalCases` selects |
| Workflow.TestCaseGenerator.constructor | client/src/components/New.jsx:5-10 | initial state: empty URL, flags false, no test cases, no screenshot |
| Workflow.TestCaseGenerator.SetUrl | client/src/components/New.jsx:85 | the URL input changes the URL and nothing else |
| Workflow.TestCaseGenerator.GenerateTestCases | client/src/components/New.jsx:13-47 | with an empty URL nothing changes and nothing is sent; otherwise the trigger is sent with both busy flags on and the list empty, then the poll requests follow; afterwards both flags are off on every path, the main pane is no longer loading, the poll count is `PollCount`, and the list is `FinalCases` (empty after any exception) |
| Workflow.TestCaseGenerator.FetchScreenshot | client/src/components/New.jsx:50-68 | with an empty URL nothing changes; otherwise the capture request is sent with the loading flag on; the flag is off afterwards on every path; an ok reply stores a reference to its body, while a failing reply or an exception clears the preview |
| Workflow.TestCaseGenerator.MainPane | client/src/components/New.jsx:139-151 | the loading view if and only if results are being fetched; otherwise the empty view if and only if the list is empty, and otherwise the list headed by its count |
| Workflow.JoinLength | client/src/components/Test.jsx:70 | joining n parts gives the sum of their lengths plus 2(n-1) |
| Workflow.JoinPart | client/src/components/Test.jsx:70 | part k appears unchanged at its offset in the joined text |
| Workflow.JoinSeparator | client/src/components/Test.jsx:70 | a `"\n\n"` separator follows each part except the last |
| Workflow.JoinLayout | client/src/components/Test.jsx:70 | the joined text is every part at its offset, with exactly one separator between consecutive parts: n parts give n-1 separators |
| Workflow.TestCaseGenerator.DownloadText | client/src/components/Test.jsx:69-70 | the suite text is empty for an empty list; otherwise its length is the total code length plus 2 for each of the n-1 separators, record k's `code` (empty when missing) sits at its offset, and a blank line follows every record but the last |
| Workflow.SuiteLayout | client/src/components/Test.jsx:70 | `map(t => t.code).join("\n\n")` holds each record's code at its offset in record order, with a blank line between consecutive records |

## Left out

- Selenium itself is not modelled. This covers `webdriver.Chrome()`, `driver.get`, `find_elements`, `WebDriverWait`, `is_displayed`, `is_enabled`, `clear`, `send_keys`, `click` and `quit`. Their outcomes are inputs.
- `time.sleep(5)`, the `print` logging, the `sys.argv` check and the writing of `robust_generated_xpaths.txt` and `final_ai_test_results.json` are left out. They are I/O.
- XPaths.Distinct: Python's `list(set(...))` leaves the order open. The model keeps first occurrences, and its contracts state only no-duplicates and same membership.
- Execution.RunTests: an exception raised while reading the found element (`is_displayed`, `get_attribute('outerHTML')`, `classify_element`'s reads) is folded into `Raised` before anything is recorded. The outer HTML of a found element is assumed readable.
- Strings.Lower: it maps only ASCII letters. Python's `lower()` also lower-cases other Unicode letters; the tag names compared are ASCII.
- The trigger's HTTP status is not modelled, because the component never inspects it.
- A failure of `res.json()` is folded into `PollThrows`, since it is caught by the same `catch`. A parsed body is assumed to be an array of records.
- `fetch`, `setTimeout`, `Blob`, `URL.createObjectURL` and `console.error` become parameters or trace entries. Their real timing and effects are not modelled.
- The download itself (anchor element, click) and `copyToClipboard` with its timer are left out. Only the suite text of `downloadTestSuite` is modelled.
- Workflow.TestCaseGenerator.GenerateTestCases: it runs without interleaving. React may render, or run another handler, at each `await`; that concurrency is not modelled. Intermediate states appear only as the flag snapshots in `trace`.
- The JSX markup is not modelled, apart from the main-pane choice. Neither are the `activeTab` and `copiedIndex` state of `Test.jsx`.
- XPath evaluation is not modelled. XPath 1.0 string literals have no backslash escape, so a text locator built from text containing `"` is not a valid selector in the browser; `Unescape` is this model's inverse of the escape, not the browser's reading. Looking such a locator up raises in the browser; its outcome is then `Raised`, which `RecordFor` turns into a `Failure` record.
- `server/app.py` is not part of this model. Its Flask routes, CORS, `subprocess.run` and background thread are plumbing.
- `server/screenshot.py` is not part of this model. Its headless capture is foreign calls.
- `client/src/components/Home.jsx`, `client/src/components/Navbar.jsx`, `client/src/App.jsx` and `client/vite.config.js` are not part of this model. They are markup, routing and configuration.
