# Originality checker client: a Dafny model of its page logic

This project models the decision logic of a small React client for an
originality-analysis service. A user submits pasted text or a dropped
document. The backend returns a task identifier. A results page then fetches
the analysis once and renders a report. A rewrite tool can rephrase text and
export the rewrite to the clipboard, a Word-compatible file or a PDF.

Each page is modelled as an immutable state record and pure transition
functions. Every asynchronous handler is split in two:

- a function for the event that starts it. It returns the state while the
  request is in flight and a `Send(call)` effect naming the gateway request.
- a function for the moment the request settles. It takes the gateway's
  `Outcome` (`Ok(value)` or `Err(failure)`) as an input and returns the final
  state and the browser effects (navigate, alert, save a file, write the
  clipboard, start a timer).

Other events, such as edits, can therefore happen between the two halves.

| file | module | models |
|---|---|---|
| `text.dfy` | `Text` | `trim`, the global newline replacement of the Word export and its inverse, `Array.prototype.join` |
| `js.dfy` | `Js` | JavaScript values, truthiness, `typeof … === 'object'`, `||`, `String(v)`; the uninterpreted built-ins (`JSON.stringify`, number formatting, `encodeURIComponent`) are fields of a `Host` record passed in |
| `gateway.dfy` | `Gateway` | the six backend requests, their outcomes and response shapes |
| `browser.dfy` | `Browser` | the effects a handler performs |
| `button.dfy` | `Button` | the shared button: defaults, class arguments, the computed `disabled` and the props spread that overrides it, the spinner |
| `results.dfy` | `Results` | the results page: one-shot fetch, render order, metrics default, chart split, thresholds, verdict badge, detailed rows, report download |
| `check.dfy` | `Check` | the submission page: text check, drop dispatch on media type, the two error-message builders, the Analyze button |
| `rewrite.dfy` | `Rewrite` | the rewrite tool: rewrite and generate, PDF export, copy, the Word markup builder, its buttons |

In these places the code behaves differently from what its interface suggests, and the model follows the code:

- The Analyze button is not disabled while a check is in flight. The button
  computes `disabled` from `isLoading`, but the caller's `disabled` prop is
  spread after it and wins. The caller's value only tests for empty text with
  no drag active (`Check.AnalyzeEnabledWhileChecking`). That test does not trim,
  so whitespace-only text enables the button while the handler ignores the
  press (`Check.WhitespaceEnablesButDoesNothing`).
- The text path serialises any object detail, arrays included. Only the upload
  path joins the `msg` fields of an array detail. That join throws on a null
  or undefined element, and the rejection then goes unhandled with the page
  still checking (`Check.Uploaded`). An empty array yields an empty message,
  which the banner does not show (`Check.EmptyFieldListHidesError`).
- A successful upload navigates without clearing the checking flag.
- The downloaded report's object URL is revoked only after a successful click.
  It is not released on every path.

## Model

| member | source | states |
|---|---|---|
| `Text.TrimStart` | frontend/src/components/RewriteTool.jsx:16 | the leading part `trim` removes is all whitespace; what remains is a suffix of the input that starts with a non-whitespace character |
| `Text.TrimEnd` | frontend/src/components/RewriteTool.jsx:30 | the trailing part `trim` removes is all whitespace; what remains is a prefix of the input that ends with a non-whitespace character |
| `Text.BlankIffAllWhitespace` | frontend/src/pages/CheckPage.jsx:15 | `!text.trim()` holds exactly when every character is ECMAScript whitespace or a line terminator |
| `Text.ReplaceNewlines` | frontend/src/components/RewriteTool.jsx:76 | no "\n" survives the replacement; text without newlines passes through verbatim, unescaped |
| `Text.ReplaceDistributes` | frontend/src/components/RewriteTool.jsx:76 | the replacement is global: replacing a concatenation equals concatenating the replaced parts |
| `Text.RestoreAfterReplace` | frontend/src/components/RewriteTool.jsx:76 | reading `<br>` back as "\n" recovers any text that held no literal `<br>` |
| `Text.TagAndNewlineCollide` | frontend/src/components/RewriteTool.jsx:76 | because nothing is escaped, a literal `<br>` and a newline produce the same markup |
| `Text.JoinWith` | frontend/src/pages/CheckPage.jsx:64 | a single part joins to itself; with a non-empty separator, the join is empty only for no parts or one empty part |
| `Js.Or` | frontend/src/pages/CheckPage.jsx:27 | `a || b` is truthy iff either operand is, and is the first operand whenever that is truthy |
| `Button.WithDefault` | frontend/src/components/ui/Button.jsx:5 | a destructuring default replaces an undefined prop and leaves any other value alone |
| `Button.Render` | frontend/src/components/ui/Button.jsx:5-32 | a caller-supplied `disabled` is the effective state whatever `isLoading` says, and without one the state follows `isLoading`; the spinner shows iff `isLoading` and comes before the children; class arguments are base, the variant's class, the size's class, caller class, with variant and size defaulting to `default` and an unlisted one contributing no class; other props reach the element unchanged |
| `Results.Mount` | frontend/src/pages/ResultsPage.jsx:17-35 | the page starts loading, with no result and no error, and issues one fetch for its task |
| `Results.Fetched` | frontend/src/pages/ResultsPage.jsx:23-35 | a fetched result is stored; a failure stores exactly "Failed to load results."; loading is false after both |
| `Results.RunKeepsSettled` | frontend/src/pages/ResultsPage.jsx:23-35 | over any sequence of events, once loading has ended there is a result or an error |
| `Results.Render` | frontend/src/pages/ResultsPage.jsx:57-79 | rendering checks loading first, then the error, then the report, built from the stored result |
| `Results.NeverCrashes` | frontend/src/pages/ResultsPage.jsx:57-88 | from mount, under any outcomes in any order, the page never reads fields of a missing result |
| `Results.ShownMetrics` | frontend/src/pages/ResultsPage.jsx:82-88 | absent metrics show as 0 / "N/A" / 0 / 0 / 0; present metrics are shown unchanged |
| `Results.MetricsShown` | frontend/src/pages/ResultsPage.jsx:82-88 | after a successful fetch from mount, and any later downloads, the report shows the result's own metrics, or the zeroed "N/A" metrics when it carries none |
| `Results.DownloadsKeepReport` | frontend/src/pages/ResultsPage.jsx:37-55 | download events leave loading, the result and the error untouched, over any sequence of them |
| `Results.ChartData` | frontend/src/pages/ResultsPage.jsx:90-99 | two slices that sum to 100, the second being the overall similarity, both within 0..100 for an in-range score |
| `Results.Headline` | frontend/src/pages/ResultsPage.jsx:133 | the headline is adverse (red) iff the similarity exceeds 20, so 20 itself is favourable |
| `Results.HeadlineMonotone` | frontend/src/pages/ResultsPage.jsx:133 | the headline has one breakpoint: once adverse, it stays adverse for every higher similarity |
| `Results.SeverityOf` | frontend/src/pages/ResultsPage.jsx:203-206 | high iff score > 80, medium iff 40 < score <= 80, low iff score <= 40 |
| `Results.SeverityMonotone` | frontend/src/pages/ResultsPage.jsx:203-206 | severity never decreases as the score grows, and its rank counts the breakpoints (40, 80) the score lies strictly above |
| `Results.Badge` | frontend/src/pages/ResultsPage.jsx:111-114 | the verdict badge is favourable iff the verdict is exactly "Clean" |
| `Results.Items` | frontend/src/pages/ResultsPage.jsx:200-224 | one row per scored sentence in order, each showing its sentence, score and severity; the matched-source block appears iff the source is present and non-empty |
| `Results.ReportFilename` | frontend/src/pages/ResultsPage.jsx:44 | the file name is `plagiarism_report_`, then the task id, then `.pdf` |
| `Results.DownloadClicked` | frontend/src/pages/ResultsPage.jsx:37-40 | pressing download raises `downloading` and requests the report for the page's task, changing nothing else |
| `Results.Downloaded` | frontend/src/pages/ResultsPage.jsx:40-54 | success saves the bytes under the report file name, failure alerts; `downloading` drops on both |
| `Results.DownloadRoundTrip` | frontend/src/pages/ResultsPage.jsx:37-55 | a download started from idle and then settled leaves the page state exactly as it was |
| `Results.DownloadButtonGuards` | frontend/src/pages/ResultsPage.jsx:117 | the download button is disabled exactly while downloading, and the button itself shows no spinner |
| `Results.CleanScenario` | frontend/src/pages/ResultsPage.jsx:94-133 | similarity 15 with verdict "Clean" gives a favourable headline and badge, slices [85, 15] and a low-severity row |
| `Check.ResultsPath` | frontend/src/pages/CheckPage.jsx:21 | the route is `/results/` followed by the task id; a missing id gives `/results/undefined` |
| `Check.CheckClicked` | frontend/src/pages/CheckPage.jsx:14-19 | blank text changes nothing and sends nothing; otherwise checking starts, the previous error is cleared and the text is submitted |
| `Check.CheckRoundTrip` | frontend/src/pages/CheckPage.jsx:14-31 | for non-blank text, click then settle ends with checking off and the text kept; success navigates with no banner, failure shows a banner and does not navigate |
| `Check.BlankCheckIsNoOp` | frontend/src/pages/CheckPage.jsx:15 | no request goes out exactly when the text is all whitespace, and then the state is untouched |
| `Check.CheckErrorMessage` | frontend/src/pages/CheckPage.jsx:24-28 | object-typed detail (arrays and null too) is serialised; else a truthy detail; else a truthy error message; else the fixed text-check fallback |
| `Check.CheckErrorAlwaysShown` | frontend/src/pages/CheckPage.jsx:24-28 | a failed text check always yields a truthy message, so the banner shows |
| `Check.CheckSettled` | frontend/src/pages/CheckPage.jsx:18-31 | success navigates to the task's results route; failure records the message; checking is false afterwards on both |
| `Check.Dropped` | frontend/src/pages/CheckPage.jsx:34-51 | an empty drop is a no-op; only the first file counts; `text/plain` is read into the editor and any other type is uploaded |
| `Check.FileRead` | frontend/src/pages/CheckPage.jsx:42-45 | the file's content replaces the editor text and checking ends |
| `Check.MessageTexts` | frontend/src/pages/CheckPage.jsx:64 | the list exists iff no element is null or undefined, with one entry per element: that element's `msg` as `join` renders it |
| `Check.UploadErrorMessage` | frontend/src/pages/CheckPage.jsx:60-69 | an array detail gives its `msg` fields joined by ", " (no message if that throws); another object or null is serialised; else detail, error message or the upload fallback, in that order |
| `Check.EmptyFieldListHidesError` | frontend/src/pages/CheckPage.jsx:63-71 | an empty field list, or one with a single empty message, sets an empty, hidden error, whatever the error's own message is |
| `Check.Uploaded` | frontend/src/pages/CheckPage.jsx:51-73 | the editor text never changes; it navigates iff the task id is truthy; a missing id alerts and ends checking; a failure sets the message and ends checking unless building the message throws |
| `Check.PlainTextDropLoadsEditor` | frontend/src/pages/CheckPage.jsx:40-47 | a plain-text drop never uploads or navigates, and loading finishes with exactly the file's content in the editor |
| `Check.OtherDropUploads` | frontend/src/pages/CheckPage.jsx:50-57 | any other drop uploads exactly that file, keeps the editor text and navigates iff a truthy task id comes back |
| `Check.AnalyzeDisabledIgnoresChecking` | frontend/src/pages/CheckPage.jsx:119 | the Analyze button is disabled iff the text is empty and no drag is active, whatever the checking state; the spinner follows checking |
| `Check.AnalyzeEnabledWhileChecking` | frontend/src/pages/CheckPage.jsx:119 | while a check is in flight, non-empty text leaves the button enabled |
| `Check.WhitespaceEnablesButDoesNothing` | frontend/src/pages/CheckPage.jsx:119 | any non-empty whitespace-only text enables the button, yet pressing it does nothing |
| `Rewrite.InitialState` | frontend/src/components/RewriteTool.jsx:8-13 | empty text and result, mode academic, all flags down |
| `Rewrite.ModeName` | frontend/src/components/RewriteTool.jsx:110-112 | no selectable mode is sent as `comprehensive` |
| `Rewrite.ModeNamesDistinct` | frontend/src/components/RewriteTool.jsx:110-112 | distinct selectable modes are sent under distinct names |
| `Rewrite.Requested` | frontend/src/components/RewriteTool.jsx:15-19 | blank text is a no-op; otherwise loading is raised and the text is sent in the given mode |
| `Rewrite.ActionsSendTheirModes` | frontend/src/components/RewriteTool.jsx:14-34 | Rewrite sends the selected mode and never `comprehensive`; Generate always sends `comprehensive`; both are no-ops on blank text |
| `Rewrite.Replied` | frontend/src/components/RewriteTool.jsx:18-26 | success replaces the result with the rewritten text, failure alerts and keeps it; loading ends; nothing else changes |
| `Rewrite.RewriteRoundTrip` | frontend/src/components/RewriteTool.jsx:15-27 | from an idle tool, a rewrite ends idle, with the reply as result on success and the state unchanged on failure |
| `Rewrite.ResultOnlyFromReplies` | frontend/src/components/RewriteTool.jsx:14-40 | in any run without a successful rewrite or generate reply, the result never changes |
| `Rewrite.ActionButtonGuards` | frontend/src/components/RewriteTool.jsx:117-121 | Rewrite and Generate are each disabled iff loading or the text is blank; Rewrite is outlined, Generate keeps the default variant under its own class |
| `Rewrite.PdfClicked` | frontend/src/components/RewriteTool.jsx:43-47 | an empty result makes PDF export a no-op; otherwise `pdfLoading` is raised and the result is sent for rendering |
| `Rewrite.PdfSettled` | frontend/src/components/RewriteTool.jsx:46-61 | success saves the PDF as `ai_generated_document.pdf`, failure alerts; `pdfLoading` drops on both |
| `Rewrite.PdfExportIndependent` | frontend/src/components/RewriteTool.jsx:43-62 | the PDF export never touches `loading`, the text or the result |
| `Rewrite.PdfButtonGuards` | frontend/src/components/RewriteTool.jsx:139 | the PDF button is disabled exactly while the PDF is being rendered |
| `Rewrite.Copied` | frontend/src/components/RewriteTool.jsx:64-67 | copy writes exactly the result to the clipboard, raises `copied` and starts a 2000 ms timer; the handler itself does not check the result, the panel around its control does (`Rewrite.Step`) |
| `Rewrite.CopyTimerFired` | frontend/src/components/RewriteTool.jsx:67 | the timer lowers `copied` and changes nothing else |
| `Rewrite.CopyThenTimer` | frontend/src/components/RewriteTool.jsx:64-68 | a copy followed by its timer leaves the state as before, with `copied` down |
| `Rewrite.WordMarkup` | frontend/src/components/RewriteTool.jsx:70-76 | the markup is the fixed header and `<p>`, then a body with no newline, then `</p>` and the footer; a newline-free result is the body verbatim |
| `Rewrite.WordExportRoundTrip` | frontend/src/components/RewriteTool.jsx:76 | reading the paragraph back recovers any result that held no literal `<br>` |
| `Rewrite.DocClicked` | frontend/src/components/RewriteTool.jsx:70-85 | one download of the encoded markup as a Word data URL named `rewritten_text.doc`; the state is unchanged |
| `Rewrite.Step` | frontend/src/components/RewriteTool.jsx:128-143 | an event exports (clipboard, Word download, PDF request) only while the result panel is shown; pressing an absent panel control changes nothing; with the panel shown, copy writes the result and PDF sends it |
| `Rewrite.NoExportWithoutResult` | frontend/src/components/RewriteTool.jsx:128-143 | from a state with no result, a run with no successful reply never writes the clipboard, starts a Word download or requests a PDF |

## Left out

- The HTTP wrapper in `frontend/src/services/api.js` is not modelled. Its six operations appear only as `Send` effects, and their outcomes are inputs.
- The landing page and the route table are not modelled; they hold no logic. The results route string is built in `Check.ResultsPath`.
- Browser side effects are recorded as effects and nothing more. This covers object URLs and their revocation, anchor clicks, `FileReader`, the clipboard, `alert`, `console.error` and real timer timing.
- A reader error is not modelled. `onload` then never fires, so nothing in the model moves the page out of checking.
- Stale responses are not modelled: a response that arrives after navigation or unmount, and the re-run of the fetch effect when the route parameter changes without a remount.
- Rendering details are left out: icons, Tailwind strings merged by `cn`, Chart.js options, `toFixed(0)` score text, and how React prints an error value that is not a string.
- Numbers are `real`. NaN, infinities and floating-point rounding of `100 - s` are not modelled.
- Click handlers are not part of the modelled props, because functions are not values in `Js.Value`.
- A response body that is null or undefined is not modelled. Reading `task_id` from it would throw.
- Which files the drop zone accepts is not modelled; the accepted list is an input.
- `JSON.stringify`, number formatting and `encodeURIComponent` are uninterpreted functions supplied in `Js.Host`.
- Check.ResultsPath: the text after the route is stated only for string and undefined ids. Other ids go through uninterpreted number formatting or array/object conversion.
- Button.Render: a falsy non-boolean `isLoading` such as `0` would be printed as text by React. The model treats it only as "no spinner".
- Rewrite.Step: presses of a disabled Rewrite, Generate, PDF or download button are not excluded from event runs. The handlers' own guards are modelled; the button-level guards are stated separately (`Rewrite.ActionButtonGuards`, `Rewrite.PdfButtonGuards`, `Results.DownloadButtonGuards`).
- Rewrite.NoExportWithoutResult: a PDF requested while a result was shown is still saved when its reply arrives, even if a later empty reply has cleared the result; the lemma covers clipboard writes, Word downloads and PDF requests, not that save.
