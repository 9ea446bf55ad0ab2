/** The results page: it fetches one analysis result for the task in its
    route, shows a spinner, an error view or the report, derives the
    report's presentation data, and downloads the PDF report on request. */
module Results {
  import opened Js
  import opened Gateway
  import opened Browser
  import Button

  const LoadFailedMessage := "Failed to load results."
  const DownloadFailedMessage := "Failed to download report. Please try again."
  const ReportPrefix := "plagiarism_report_"
  const ReportSuffix := ".pdf"

  /** Presentation thresholds on a 0..100 similarity score. */
  const HeadlineThreshold: real := 20.0
  const MediumThreshold: real := 40.0
  const HighThreshold: real := 80.0

  const DefaultMetrics := Metrics(0.0, "N/A", 0, 0, 0)

  datatype State = State(
    taskId: string,
    result: Option<AnalysisResult>,
    downloading: bool,
    loading: bool,
    error: Option<string>)

  // ---- fetch on mount -------------------------------------------------

  /** Mounting for a task: the page starts loading, with nothing fetched
      and no error, and issues exactly one result request. */
  function Mount(taskId: string): (n: Next<State>)
    ensures n.state.taskId == taskId && n.state.loading
    ensures n.state.result.None? && n.state.error.None? && !n.state.downloading
    ensures n.effects == [Send(FetchResult(taskId))]
  {
    Next(State(taskId, None, false, true, None), [Send(FetchResult(taskId))])
  }

  /** The result request settles: a success stores the result, a failure
      stores the fixed error text; loading ends either way. */
  function Fetched(s: State, o: Outcome<AnalysisResult>): (n: Next<State>)
    ensures !n.state.loading && n.effects == []
    ensures o.Ok? ==> n.state.result == Some(o.value) && n.state.error == s.error
    ensures o.Err? ==> n.state.error == Some(LoadFailedMessage) && n.state.result == s.result
    ensures n.state.taskId == s.taskId && n.state.downloading == s.downloading
  {
    match o
    case Ok(r) => Next(s.(result := Some(r), loading := false), [])
    case Err(_) => Next(s.(error := Some(LoadFailedMessage), loading := false), [])
  }

  // ---- report download ------------------------------------------------

  function ReportFilename(taskId: string): (f: string)
    ensures |f| == |ReportPrefix| + |taskId| + |ReportSuffix|
    ensures f[..|ReportPrefix|] == ReportPrefix
    ensures f[|ReportPrefix|..|f| - |ReportSuffix|] == taskId
    ensures f[|f| - |ReportSuffix|..] == ReportSuffix
  {
    ReportPrefix + taskId + ReportSuffix
  }

  /** The download button is pressed: the flag is raised and the report is
      requested for the page's task; nothing else changes. */
  function DownloadClicked(s: State): (n: Next<State>)
    ensures n.state == s.(downloading := true)
    ensures n.effects == [Send(FetchReport(s.taskId))]
  {
    Next(s.(downloading := true), [Send(FetchReport(s.taskId))])
  }

  /** The report request settles: the bytes are saved under the report's
      file name, or the user is alerted; the flag drops either way. */
  function Downloaded(s: State, o: Outcome<Blob>): (n: Next<State>)
    ensures n.state == s.(downloading := false)
    ensures o.Ok? ==> n.effects == [SaveBlob(o.value, ReportFilename(s.taskId))]
    ensures o.Err? ==> n.effects == [Alert(DownloadFailedMessage)]
  {
    match o
    case Ok(blob) => Next(s.(downloading := false), [SaveBlob(blob, ReportFilename(s.taskId))])
    case Err(_) => Next(s.(downloading := false), [Alert(DownloadFailedMessage)])
  }

  /** A download started and settled leaves the page as it was, whatever
      the outcome, and saves under `plagiarism_report_<task>.pdf` on success. */
  lemma DownloadRoundTrip(s: State, o: Outcome<Blob>)
    requires !s.downloading
    ensures Downloaded(DownloadClicked(s).state, o).state == s
    ensures DownloadClicked(s).state.downloading
    ensures o.Ok? ==> Downloaded(DownloadClicked(s).state, o).effects
                      == [SaveBlob(o.value, ReportPrefix + s.taskId + ReportSuffix)]
  {
  }

  // ---- events and reachable states ------------------------------------

  datatype Event =
    | FetchSettled(result: Outcome<AnalysisResult>)
    | DownloadPressed
    | DownloadSettled(report: Outcome<Blob>)

  function Apply(s: State, e: Event): State {
    match e
    case FetchSettled(o) => Fetched(s, o).state
    case DownloadPressed => DownloadClicked(s).state
    case DownloadSettled(o) => Downloaded(s, o).state
  }

  function Run(s: State, es: seq<Event>): State
    decreases |es|
  {
    if es == [] then s else Run(Apply(s, es[0]), es[1..])
  }

  /** Once loading has ended, there is a result or an error to show. */
  predicate Settled(s: State) {
    !s.loading ==> s.result.Some? || s.error.Some?
  }

  lemma {:induction false} RunKeepsSettled(s: State, es: seq<Event>)
    requires Settled(s)
    ensures Settled(Run(s, es))
    decreases |es|
  {
    if es != [] {
      RunKeepsSettled(Apply(s, es[0]), es[1..]);
    }
  }

  // ---- presentation ---------------------------------------------------

  datatype Tone = Favourable | Adverse
  datatype Severity = Low | Medium | High

  function Rank(v: Severity): nat {
    match v
    case Low => 0
    case Medium => 1
    case High => 2
  }

  /** The metrics shown: the result's own, or the zeroed default for
      results that carry none. */
  function ShownMetrics(r: AnalysisResult): (m: Metrics)
    ensures r.metrics.Some? ==> m == r.metrics.value
    ensures r.metrics.None? ==> m.readabilityScore == 0.0 && m.readabilityLabel == "N/A"
    ensures r.metrics.None? ==> m.spellingErrors == 0 && m.grammarIssues == 0 && m.additionalIssues == 0
  {
    match r.metrics
    case Some(m) => m
    case None => DefaultMetrics
  }

  /** The doughnut's two slices, unique then plagiarized. */
  function ChartData(similarity: real): (d: seq<real>)
    ensures |d| == 2 && d[0] + d[1] == 100.0 && d[1] == similarity
    ensures 0.0 <= similarity <= 100.0 ==> 0.0 <= d[0] <= 100.0
  {
    [100.0 - similarity, similarity]
  }

  function Headline(similarity: real): (t: Tone)
    ensures t == Adverse <==> similarity > HeadlineThreshold
  {
    if similarity > HeadlineThreshold then Adverse else Favourable
  }

  /** The headline turns adverse at one breakpoint and stays adverse for
      every higher similarity. */
  lemma HeadlineMonotone(a: real, b: real)
    requires a <= b
    ensures Headline(a) == Adverse ==> Headline(b) == Adverse
    ensures Headline(b) == Favourable ==> Headline(a) == Favourable
  {
  }

  function SeverityOf(score: real): (v: Severity)
    ensures v == High <==> score > HighThreshold
    ensures v == Medium <==> MediumThreshold < score <= HighThreshold
    ensures v == Low <==> score <= MediumThreshold
  {
    if score > HighThreshold then High
    else if score > MediumThreshold then Medium
    else Low
  }

  /** Severity is a step function: a higher score is never less severe,
      and its rank counts the breakpoints the score lies strictly above. */
  lemma SeverityMonotone(a: real, b: real)
    requires a <= b
    ensures Rank(SeverityOf(a)) <= Rank(SeverityOf(b))
    ensures Rank(SeverityOf(a)) == (if a > MediumThreshold then 1 else 0) + (if a > HighThreshold then 1 else 0)
  {
  }

  /** The verdict badge is favourable only for the exact verdict "Clean". */
  function Badge(verdict: string): (t: Tone)
    ensures t == Favourable <==> verdict == "Clean"
  {
    if verdict == "Clean" then Favourable else Adverse
  }

  datatype ItemView = ItemView(
    severity: Severity,
    score: real,
    sentence: string,
    matchedSource: Option<string>,
    explanation: string)

  /** One detailed row; the matched-source block is rendered only for a
      present, non-empty source (an empty string is falsy). */
  function ItemOf(d: DetailedScore): ItemView {
    ItemView(
      SeverityOf(d.similarityScore),
      d.similarityScore,
      d.sentence,
      if d.matchedSource.Some? && d.matchedSource.value != [] then d.matchedSource else None,
      d.explanation)
  }

  /** The detailed rows: one per scored sentence, in the result's order. */
  function Items(ds: seq<DetailedScore>): (v: seq<ItemView>)
    ensures |v| == |ds|
    ensures forall i :: 0 <= i < |ds| ==> v[i].sentence == ds[i].sentence && v[i].score == ds[i].similarityScore
    ensures forall i :: 0 <= i < |ds| ==> v[i].severity == SeverityOf(ds[i].similarityScore)
    ensures forall i :: 0 <= i < |ds| ==>
      (v[i].matchedSource.Some? <==> ds[i].matchedSource.Some? && ds[i].matchedSource.value != [])
    ensures forall i :: 0 <= i < |ds| ==> v[i].matchedSource.Some? ==> v[i].matchedSource == ds[i].matchedSource
  {
    seq(|ds|, i requires 0 <= i < |ds| => ItemOf(ds[i]))
  }

  function DownloadButton(downloading: bool): Button.Rendered {
    Button.Render(map[
      "disabled" := Bool(downloading),
      "size" := Str("sm"),
      "children" := Str(if downloading then "PDF..." else "Download Report")])
  }

  /** The download button is disabled exactly while a download is in
      flight, and shows no spinner of the button's own. */
  lemma DownloadButtonGuards(downloading: bool)
    ensures DownloadButton(downloading).disabled <==> downloading
    ensures Button.Spinner !in DownloadButton(downloading).content
  {
  }

  datatype Report = Report(
    badge: Tone,
    verdict: string,
    download: Button.Rendered,
    chart: seq<real>,
    headline: Tone,
    similarity: real,
    explanation: string,
    metrics: Metrics,
    items: seq<ItemView>)

  function Present(r: AnalysisResult, downloading: bool): Report {
    Report(
      Badge(r.verdict),
      r.verdict,
      DownloadButton(downloading),
      ChartData(r.overallSimilarity),
      Headline(r.overallSimilarity),
      r.overallSimilarity,
      r.explanation,
      ShownMetrics(r),
      Items(r.detailedScores))
  }

  /** What the page renders. `Crashed` stands for the TypeError reading the
      fields of a missing result. */
  datatype View = Spinner | ErrorView(message: string) | ReportView(report: Report) | Crashed

  /** Rendering checks loading first, then the error, then the report. */
  function Render(s: State): (v: View)
    ensures v.Spinner? <==> s.loading
    ensures v.ErrorView? <==> !s.loading && s.error.Some?
    ensures v.ErrorView? ==> v.message == s.error.value
    ensures v.ReportView? <==> !s.loading && s.error.None? && s.result.Some?
    ensures v.ReportView? ==> v.report == Present(s.result.value, s.downloading)
  {
    if s.loading then Spinner
    else if s.error.Some? then ErrorView(s.error.value)
    else if s.result.Some? then ReportView(Present(s.result.value, s.downloading))
    else Crashed
  }

  /** Whatever outcomes arrive, in whatever order, the page never renders
      from a missing result. */
  lemma NeverCrashes(taskId: string, es: seq<Event>)
    ensures Render(Run(Mount(taskId).state, es)) != Crashed
  {
    RunKeepsSettled(Mount(taskId).state, es);
  }

  /** After the fetch succeeds, and after any later downloads, the report
      shows the result's own metrics, or all-zero metrics labelled "N/A"
      when the result carries none. */
  lemma {:induction false} MetricsShown(taskId: string, r: AnalysisResult, downloads: seq<Event>)
    requires forall i :: 0 <= i < |downloads| ==> !downloads[i].FetchSettled?
    ensures var v := Render(Run(Fetched(Mount(taskId).state, Ok(r)).state, downloads));
            && v.ReportView?
            && v.report.metrics == ShownMetrics(r)
            && (r.metrics.Some? ==> v.report.metrics == r.metrics.value)
            && (r.metrics.None? ==> v.report.metrics == DefaultMetrics)
  {
    DownloadsKeepReport(Fetched(Mount(taskId).state, Ok(r)).state, downloads);
  }

  /** Download events never touch loading, the result or the error. */
  lemma {:induction false} DownloadsKeepReport(s: State, es: seq<Event>)
    requires forall i :: 0 <= i < |es| ==> !es[i].FetchSettled?
    ensures var t := Run(s, es);
            t.loading == s.loading && t.result == s.result && t.error == s.error
    decreases |es|
  {
    if es != [] {
      assert !es[0].FetchSettled?;
      DownloadsKeepReport(Apply(s, es[0]), es[1..]);
    }
  }

  /** A clean result: similarity 15 with verdict "Clean" renders a
      favourable headline and badge and the slices [85, 15]. */
  lemma CleanScenario(taskId: string, sentence: DetailedScore)
    requires sentence.similarityScore == 15.0 && sentence.matchedSource.None?
    ensures var r := AnalysisResult(15.0, "Clean", "", None, [sentence]);
            var v := Render(Fetched(Mount(taskId).state, Ok(r)).state);
            && v.ReportView?
            && v.report.headline == Favourable && v.report.badge == Favourable
            && v.report.chart == [85.0, 15.0]
            && v.report.items[0].severity == Low && v.report.items[0].matchedSource.None?
  {
  }
}
