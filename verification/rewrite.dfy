/** The rewrite tool: text is sent for rewriting in the chosen mode, or for
    a fix-everything pass; the rewritten result can be copied, exported as a
    Word-compatible document, or rendered to PDF. */
module Rewrite {
  import opened Js
  import opened Text
  import opened Gateway
  import opened Browser
  import Button

  /** The modes the selector offers: its three options are exactly these
      constructors, in this order. */
  datatype Mode = Academic | Humanize | Fix

  /** The pass that fixes everything; the selector never offers it. */
  const GenerateMode := "comprehensive"

  function ModeName(m: Mode): (name: string)
    ensures name != GenerateMode
  {
    match m
    case Academic => "academic"
    case Humanize => "humanize"
    case Fix => "fix"
  }

  /** Distinct modes go out under distinct names. */
  lemma ModeNamesDistinct(a: Mode, b: Mode)
    requires a != b
    ensures ModeName(a) != ModeName(b)
  {
  }

  const RewriteFailedAlert := "Rewrite failed. Please check the backend connection."
  const GenerateFailedAlert := "AI Generation failed."
  const PdfFailedAlert := "Failed to download PDF."
  const PdfFilename := "ai_generated_document.pdf"
  const DocFilename := "rewritten_text.doc"
  const DocUrlPrefix := "data:application/vnd.ms-word;charset=utf-8,"
  const CopiedMillis: nat := 2000

  const DocHeader := "<html xmlns:o='urn:schemas-microsoft-com:office:office' "
    + "xmlns:w='urn:schemas-microsoft-com:office:word' "
    + "xmlns='http://www.w3.org/TR/REC-html40'>"
    + "<head><meta charset='utf-8'><title>Export HTML to Word Document with JavaScript</title></head><body>"
  const DocFooter := "</body></html>"
  const BodyOpen := DocHeader + "<p>"
  const BodyClose := "</p>" + DocFooter

  datatype State = State(
    text: string,
    mode: Mode,
    result: string,
    loading: bool,
    pdfLoading: bool,
    copied: bool)

  const Initial := State([], Academic, [], false, false, false)

  lemma InitialState()
    ensures Initial.text == [] && Initial.result == [] && ModeName(Initial.mode) == "academic"
    ensures !Initial.loading && !Initial.pdfLoading && !Initial.copied
  {
  }

  function Edited(s: State, text: string): State {
    s.(text := text)
  }

  function ModeSelected(s: State, m: Mode): State {
    s.(mode := m)
  }

  // ---- rewrite and generate -------------------------------------------

  /** Both request actions share one guard and one loading flag; they
      differ only in the mode they send. */
  function Requested(s: State, mode: string): (n: Next<State>)
    ensures IsBlank(s.text) ==> n == Next(s, [])
    ensures !IsBlank(s.text) ==> n.state == s.(loading := true)
    ensures !IsBlank(s.text) ==> n.effects == [Send(Rewrite(s.text, mode))]
  {
    if IsBlank(s.text) then Next(s, [])
    else Next(s.(loading := true), [Send(Rewrite(s.text, mode))])
  }

  /** Rewrite sends the selected mode. */
  function RewriteClicked(s: State): Next<State> {
    Requested(s, ModeName(s.mode))
  }

  /** Generate always sends the fix-everything mode. */
  function GenerateClicked(s: State): Next<State> {
    Requested(s, GenerateMode)
  }

  /** A rewrite request settles: success replaces the result with the
      rewritten text, failure alerts and keeps the old result; loading
      ends either way. */
  function Replied(s: State, o: Outcome<Rewritten>, failedAlert: string): (n: Next<State>)
    ensures !n.state.loading
    ensures o.Ok? ==> n.state.result == o.value.rewrittenText && n.effects == []
    ensures o.Err? ==> n.state.result == s.result && n.effects == [Alert(failedAlert)]
    ensures n.state.text == s.text && n.state.mode == s.mode
    ensures n.state.pdfLoading == s.pdfLoading && n.state.copied == s.copied
  {
    match o
    case Ok(r) => Next(s.(result := r.rewrittenText, loading := false), [])
    case Err(_) => Next(s.(loading := false), [Alert(failedAlert)])
  }

  function RewriteSettled(s: State, o: Outcome<Rewritten>): Next<State> {
    Replied(s, o, RewriteFailedAlert)
  }

  function GenerateSettled(s: State, o: Outcome<Rewritten>): Next<State> {
    Replied(s, o, GenerateFailedAlert)
  }

  /** Rewrite sends the current text in the selected mode and Generate in
      the fix-everything mode; neither sends the other's mode; both do
      nothing for blank text. */
  lemma ActionsSendTheirModes(s: State)
    ensures !IsBlank(s.text) ==> RewriteClicked(s).effects == [Send(Rewrite(s.text, ModeName(s.mode)))]
    ensures !IsBlank(s.text) ==> GenerateClicked(s).effects == [Send(Rewrite(s.text, "comprehensive"))]
    ensures RewriteClicked(s).effects != [Send(Rewrite(s.text, GenerateMode))]
    ensures IsBlank(s.text) ==> RewriteClicked(s) == Next(s, []) && GenerateClicked(s) == Next(s, [])
  {
  }

  /** A full rewrite round trip from an idle tool: the result becomes the
      reply on success, stays on failure, and the tool is idle again. */
  lemma RewriteRoundTrip(s: State, o: Outcome<Rewritten>)
    requires !s.loading && !IsBlank(s.text)
    ensures var after := RewriteSettled(RewriteClicked(s).state, o).state;
            && !after.loading
            && (o.Ok? ==> after == s.(result := o.value.rewrittenText))
            && (o.Err? ==> after == s)
  {
  }

  const GenerateClass := "bg-gradient-to-r from-purple-600 to-indigo-600 text-white hover:from-purple-700 hover:to-indigo-700"

  /** The two action buttons carry the same `disabled` expression; Rewrite
      is outlined, Generate keeps the default variant under its own class. */
  function RewriteButton(s: State): Button.Rendered {
    Button.Render(map[
      "disabled" := Bool(s.loading || IsBlank(s.text)),
      "variant" := Str("outline"),
      "children" := Str("Rewrite")])
  }

  function GenerateButton(s: State): Button.Rendered {
    Button.Render(map[
      "disabled" := Bool(s.loading || IsBlank(s.text)),
      "className" := Str(GenerateClass),
      "children" := Str("AI Generate (Fix All)")])
  }

  /** Rewrite and Generate are disabled exactly while a request is in
      flight or the text is blank. */
  lemma ActionButtonGuards(s: State)
    ensures RewriteButton(s).disabled <==> s.loading || IsBlank(s.text)
    ensures GenerateButton(s).disabled <==> s.loading || IsBlank(s.text)
    ensures RewriteButton(s).classArgs[1] == Str(Button.Variants["outline"])
    ensures GenerateButton(s).classArgs[1] == Str(Button.Variants["default"])
    ensures GenerateButton(s).classArgs[3] == Str(GenerateClass)
  {
  }

  // ---- exports --------------------------------------------------------

  /** The result panel, and with it the copy, Word and PDF controls, is
      rendered only for a truthy, that is non-empty, result. */
  predicate ExportsShown(s: State) {
    s.result != []
  }

  /** An effect that exports the result: a clipboard write, a Word
      download or a PDF rendering request. */
  predicate ExportEffect(e: Effect) {
    e.WriteClipboard? || e.SaveUrl? || (e.Send? && e.call.RenderPdf?)
  }

  predicate Exports(effects: seq<Effect>) {
    exists e :: e in effects && ExportEffect(e)
  }

  function PdfClicked(s: State): (n: Next<State>)
    ensures s.result == [] ==> n == Next(s, [])
    ensures s.result != [] ==> n.state == s.(pdfLoading := true)
    ensures s.result != [] ==> n.effects == [Send(RenderPdf(s.result))]
  {
    if s.result == [] then Next(s, [])
    else Next(s.(pdfLoading := true), [Send(RenderPdf(s.result))])
  }

  function PdfSettled(s: State, o: Outcome<Blob>): (n: Next<State>)
    ensures n.state == s.(pdfLoading := false)
    ensures o.Ok? ==> n.effects == [SaveBlob(o.value, PdfFilename)]
    ensures o.Err? ==> n.effects == [Alert(PdfFailedAlert)]
  {
    match o
    case Ok(blob) => Next(s.(pdfLoading := false), [SaveBlob(blob, PdfFilename)])
    case Err(_) => Next(s.(pdfLoading := false), [Alert(PdfFailedAlert)])
  }

  /** The PDF export runs under its own flag: it never touches the rewrite
      flag, the text or the result, and ends with its flag down. */
  lemma PdfExportIndependent(s: State, o: Outcome<Blob>)
    requires s.result != []
    ensures PdfClicked(s).state.pdfLoading
    ensures var after := PdfSettled(PdfClicked(s).state, o).state;
            after.loading == s.loading && after.text == s.text && after.result == s.result
            && !after.pdfLoading
    ensures o.Ok? ==> PdfSettled(PdfClicked(s).state, o).effects == [SaveBlob(o.value, "ai_generated_document.pdf")]
  {
  }

  function PdfButton(s: State): Button.Rendered {
    Button.Render(map[
      "disabled" := Bool(s.pdfLoading),
      "size" := Str("sm"),
      "variant" := Str("outline"),
      "children" := Str("PDF")])
  }

  lemma PdfButtonGuards(s: State)
    ensures PdfButton(s).disabled <==> s.pdfLoading
  {
  }

  /** Copy writes exactly the result to the clipboard, raises the copied
      flag and schedules the timer that lowers it. */
  function Copied(s: State): (n: Next<State>)
    ensures n.state == s.(copied := true)
    ensures n.effects == [WriteClipboard(s.result), StartTimer(CopiedMillis)]
  {
    Next(s.(copied := true), [WriteClipboard(s.result), StartTimer(CopiedMillis)])
  }

  function CopyTimerFired(s: State): (n: Next<State>)
    ensures n.state == s.(copied := false) && n.effects == []
  {
    Next(s.(copied := false), [])
  }

  /** Copy followed by its timer leaves only the flag lowered. */
  lemma CopyThenTimer(s: State)
    ensures CopyTimerFired(Copied(s).state).state == s.(copied := false)
    ensures Copied(s).effects[0] == WriteClipboard(s.result)
  {
  }

  /** The Word document: the result, newlines turned into `<br>`, inside one
      paragraph between the fixed header and footer. Nothing is escaped. */
  function WordMarkup(result: string): (m: string)
    ensures |m| >= |BodyOpen| + |BodyClose|
    ensures m[..|BodyOpen|] == BodyOpen
    ensures m[|m| - |BodyClose|..] == BodyClose
    ensures forall i :: |BodyOpen| <= i < |m| - |BodyClose| ==> m[i] != '\n'
    ensures (forall i :: 0 <= i < |result| ==> result[i] != '\n') ==> m[|BodyOpen|..|m| - |BodyClose|] == result
  {
    var body := ReplaceNewlines(result);
    var m := BodyOpen + body + BodyClose;
    assert m[|BodyOpen|..|m| - |BodyClose|] == body;
    m
  }

  /** The text between the paragraph tags, read back with `<br>` as "\n". */
  function ReadWordBody(m: string): string
    requires |m| >= |BodyOpen| + |BodyClose|
  {
    RestoreNewlines(m[|BodyOpen|..|m| - |BodyClose|])
  }

  /** The Word export loses nothing for results without a literal `<br>`:
      reading the paragraph back yields the result exactly. */
  lemma WordExportRoundTrip(result: string)
    requires !ContainsLineBreakTag(result)
    ensures ReadWordBody(WordMarkup(result)) == result
  {
    var m := WordMarkup(result);
    assert m[|BodyOpen|..|m| - |BodyClose|] == ReplaceNewlines(result);
    RestoreAfterReplace(result);
  }

  /** The Word export triggers one download of the encoded markup under the
      fixed file name; the tool's state is unchanged. */
  function DocClicked(h: Host, s: State): (n: Next<State>)
    ensures n.state == s
    ensures |n.effects| == 1 && n.effects[0].SaveUrl? && n.effects[0].filename == DocFilename
    ensures n.effects[0].url == DocUrlPrefix + h.encodeUri(WordMarkup(s.result))
  {
    Next(s, [SaveUrl(DocUrlPrefix + h.encodeUri(WordMarkup(s.result)), DocFilename)])
  }

  // ---- events ---------------------------------------------------------

  datatype Event =
    | Typed(text: string)
    | Selected(mode: Mode)
    | RewritePressed
    | RewriteReplied(reply: Outcome<Rewritten>)
    | GeneratePressed
    | GenerateReplied(reply: Outcome<Rewritten>)
    | PdfPressed
    | PdfReplied(pdf: Outcome<Blob>)
    | CopyPressed
    | CopyExpired
    | DocPressed

  /** One event and what it does. A control of the result panel can be
      pressed only while the panel is rendered; without it the press
      cannot happen and nothing changes. */
  function Step(h: Host, s: State, e: Event): (n: Next<State>)
    ensures Exports(n.effects) ==> ExportsShown(s)
    ensures !ExportsShown(s) && (e.CopyPressed? || e.DocPressed? || e.PdfPressed?) ==> n == Next(s, [])
    ensures ExportsShown(s) && e.CopyPressed? ==> |n.effects| > 0 && n.effects[0] == WriteClipboard(s.result)
    ensures ExportsShown(s) && e.DocPressed? ==> |n.effects| > 0 && n.effects[0].SaveUrl?
    ensures ExportsShown(s) && e.PdfPressed? ==> n.effects == [Send(RenderPdf(s.result))]
  {
    match e
    case Typed(t) => Next(Edited(s, t), [])
    case Selected(m) => Next(ModeSelected(s, m), [])
    case RewritePressed => assert !ExportEffect(Send(Rewrite(s.text, ModeName(s.mode)))); RewriteClicked(s)
    case RewriteReplied(o) => RewriteSettled(s, o)
    case GeneratePressed => assert !ExportEffect(Send(Rewrite(s.text, GenerateMode))); GenerateClicked(s)
    case GenerateReplied(o) => GenerateSettled(s, o)
    case PdfPressed => if ExportsShown(s) then PdfClicked(s) else Next(s, [])
    case PdfReplied(o) => PdfSettled(s, o)
    case CopyPressed => if ExportsShown(s) then Copied(s) else Next(s, [])
    case CopyExpired => CopyTimerFired(s)
    case DocPressed => if ExportsShown(s) then DocClicked(h, s) else Next(s, [])
  }

  function Apply(h: Host, s: State, e: Event): State {
    Step(h, s, e).state
  }

  function Run(h: Host, s: State, es: seq<Event>): State
    decreases |es|
  {
    if es == [] then s else Run(h, Apply(h, s, es[0]), es[1..])
  }

  /** Events other than a successful rewrite or generate reply. */
  predicate KeepsResult(e: Event) {
    !(e.RewriteReplied? && e.reply.Ok?) && !(e.GenerateReplied? && e.reply.Ok?)
  }

  lemma ApplyKeepsResult(h: Host, s: State, e: Event)
    requires KeepsResult(e)
    ensures Apply(h, s, e).result == s.result
  {
  }

  /** Every effect a run performs, in order. */
  function Emitted(h: Host, s: State, es: seq<Event>): seq<Effect>
    decreases |es|
  {
    if es == [] then [] else
      var n := Step(h, s, es[0]);
      n.effects + Emitted(h, n.state, es[1..])
  }

  lemma ExportsAppend(a: seq<Effect>, b: seq<Effect>)
    ensures Exports(a + b) <==> Exports(a) || Exports(b)
  {
  }

  /** Only a successful rewrite or generate reply changes the result: in a
      run without one, the result is the one the run started with. */
  lemma {:induction false} ResultOnlyFromReplies(h: Host, s: State, es: seq<Event>)
    requires forall i :: 0 <= i < |es| ==> KeepsResult(es[i])
    ensures Run(h, s, es).result == s.result
    decreases |es|
  {
    if es != [] {
      ApplyKeepsResult(h, s, es[0]);
      ResultOnlyFromReplies(h, Apply(h, s, es[0]), es[1..]);
    }
  }

  /** While there is no result, the tool never writes the clipboard, starts
      a Word download or requests a PDF: from a state without a result, a
      run with no successful reply emits none of these. A PDF requested
      earlier may still be saved when its reply arrives. */
  lemma {:induction false} NoExportWithoutResult(h: Host, s: State, es: seq<Event>)
    requires s.result == []
    requires forall i :: 0 <= i < |es| ==> KeepsResult(es[i])
    ensures !Exports(Emitted(h, s, es))
    decreases |es|
  {
    if es != [] {
      var n := Step(h, s, es[0]);
      ApplyKeepsResult(h, s, es[0]);
      NoExportWithoutResult(h, n.state, es[1..]);
      ExportsAppend(n.effects, Emitted(h, n.state, es[1..]));
    }
  }
}
