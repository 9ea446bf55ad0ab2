/** The six backend operations, seen from the pages: a request the page
    issues and the outcome that later comes back. No transport is modelled;
    outcomes are inputs to the pages' transition functions. */
module Gateway {
  import opened Js

  datatype Blob = Blob(bytes: seq<bv8>)

  /** A dropped file as the drop zone hands it over: its declared media type
      decides how the submission page treats it. */
  datatype File = File(name: string, mimeType: string)

  datatype Call =
    | CheckText(text: string)                  // POST /check-text
    | UploadFile(file: File)                   // POST /upload-file
    | FetchResult(taskId: string)              // GET /results/{task_id}
    | FetchReport(taskId: string)              // GET /download-report/{task_id}
    | Rewrite(text: string, mode: string)      // POST /rewrite
    | RenderPdf(text: string)                  // POST /generate-pdf

  /** A rejected request: `err.response?.data?.detail` (undefined when no
      response arrived) and `err.message`. */
  datatype Failure = Failure(detail: Value, message: Value)

  datatype Outcome<+T> = Ok(value: T) | Err(failure: Failure)

  /** The body of a submission response; `task_id` may be missing. */
  datatype Ticket = Ticket(taskId: Value)

  datatype Metrics = Metrics(
    readabilityScore: real,
    readabilityLabel: string,
    spellingErrors: int,
    grammarIssues: int,
    additionalIssues: int)

  datatype DetailedScore = DetailedScore(
    sentence: string,
    similarityScore: real,
    matchedSource: Option<string>,
    explanation: string)

  datatype AnalysisResult = AnalysisResult(
    overallSimilarity: real,
    verdict: string,
    explanation: string,
    metrics: Option<Metrics>,
    detailedScores: seq<DetailedScore>)

  datatype Rewritten = Rewritten(rewrittenText: string)
}
