/** The submission page: pasted text is submitted for checking; a dropped
    plain-text file is loaded into the editor; any other dropped file is
    uploaded at once. A task identifier from the backend leads to the
    results route; a failure becomes an inline error message. */
module Check {
  import opened Js
  import opened Text
  import opened Gateway
  import opened Browser
  import Button

  const PlainText := "text/plain"
  const ResultsRoute := "/results/"
  const CheckFallback := "Failed to check text. Please try again."
  const UploadFallback := "File upload failed. Please try again."
  const NoTaskIdAlert := "File uploaded but no task ID returned."
  const FieldSeparator := ", "

  /** `navigatedTo` records the route the page left for, if any. */
  datatype State = State(text: string, isChecking: bool, error: Value, navigatedTo: Option<string>)

  /** The inline error banner shows only a truthy error value. */
  predicate ShowsError(s: State) {
    Truthy(s.error)
  }

  /** `/results/${taskId}`: the task identifier as text after the route. */
  function ResultsPath(h: Host, taskId: Value): (p: string)
    ensures |p| >= |ResultsRoute| && p[..|ResultsRoute|] == ResultsRoute
    ensures taskId.Str? ==> p[|ResultsRoute|..] == taskId.s
    ensures taskId.Undefined? ==> p == ResultsRoute + "undefined"
  {
    ResultsRoute + ToText(h, taskId)
  }

  // ---- text submission ------------------------------------------------

  /** The Analyze button's handler, up to the request. */
  function CheckClicked(s: State): (n: Next<State>)
    ensures IsBlank(s.text) ==> n == Next(s, [])
    ensures !IsBlank(s.text) ==> n.state == s.(isChecking := true, error := Null)
    ensures !IsBlank(s.text) ==> n.effects == [Send(CheckText(s.text))]
  {
    if IsBlank(s.text) then Next(s, [])
    else Next(s.(isChecking := true, error := Null), [Send(CheckText(s.text))])
  }

  /** The text path's message for a failed submission. */
  function CheckErrorMessage(h: Host, f: Failure): (m: Value)
    ensures IsObjectType(f.detail) ==> m == Str(h.stringify(f.detail))
    ensures !IsObjectType(f.detail) && Truthy(f.detail) ==> m == f.detail
    ensures !IsObjectType(f.detail) && !Truthy(f.detail) && Truthy(f.message) ==> m == f.message
    ensures !IsObjectType(f.detail) && !Truthy(f.detail) && !Truthy(f.message) ==> m == Str(CheckFallback)
  {
    if IsObjectType(f.detail) then Str(h.stringify(f.detail))
    else Or(f.detail, Or(f.message, Str(CheckFallback)))
  }

  /** The text path's message is never empty as long as serialising an
      object detail yields text, so a failed check always shows a banner. */
  lemma CheckErrorAlwaysShown(h: Host, f: Failure)
    requires IsObjectType(f.detail) ==> h.stringify(f.detail) != []
    ensures Truthy(CheckErrorMessage(h, f))
  {
  }

  /** The submission settles: success navigates to the task's results,
      failure records the message; checking ends either way. */
  function CheckSettled(h: Host, s: State, o: Outcome<Ticket>): (n: Next<State>)
    ensures !n.state.isChecking && n.state.text == s.text
    ensures o.Ok? ==> n.state.navigatedTo == Some(ResultsPath(h, o.value.taskId))
    ensures o.Ok? ==> n.effects == [Navigate(ResultsPath(h, o.value.taskId))] && n.state.error == s.error
    ensures o.Err? ==> n.state.error == CheckErrorMessage(h, o.failure)
    ensures o.Err? ==> n.effects == [] && n.state.navigatedTo == s.navigatedTo
  {
    match o
    case Ok(t) =>
      var path := ResultsPath(h, t.taskId);
      Next(s.(navigatedTo := Some(path), isChecking := false), [Navigate(path)])
    case Err(f) =>
      Next(s.(error := CheckErrorMessage(h, f), isChecking := false), [])
  }

  /** A submission of non-blank text, from click to settlement: checking
      ends and the text is kept; success navigates to the task's results
      with no banner, failure shows a banner and stays on the page. */
  lemma CheckRoundTrip(h: Host, s: State, o: Outcome<Ticket>)
    requires !IsBlank(s.text)
    requires o.Err? && IsObjectType(o.failure.detail) ==> h.stringify(o.failure.detail) != []
    ensures var after := CheckSettled(h, CheckClicked(s).state, o);
            && !after.state.isChecking && after.state.text == s.text
            && (o.Ok? ==> after.effects == [Navigate(ResultsPath(h, o.value.taskId))] && !ShowsError(after.state))
            && (o.Err? ==> ShowsError(after.state) && !Navigates(after.effects)
                           && after.state.navigatedTo == s.navigatedTo)
  {
    if o.Err? {
      CheckErrorAlwaysShown(h, o.failure);
    }
  }

  /** Blank text never reaches the gateway: the whole handler is a no-op,
      and text with a non-whitespace character always does. */
  lemma BlankCheckIsNoOp(s: State)
    ensures !Sends(CheckClicked(s).effects) <==> forall i :: 0 <= i < |s.text| ==> IsWhitespace(s.text[i])
    ensures !Sends(CheckClicked(s).effects) ==> CheckClicked(s).state == s
  {
    BlankIffAllWhitespace(s.text);
    if !IsBlank(s.text) {
      assert CheckClicked(s).effects[0].Send?;
    }
  }

  // ---- file drop ------------------------------------------------------

  /** The drop handler, up to the read or the upload. Only the first
      accepted file is looked at; an empty drop does nothing. */
  function Dropped(s: State, accepted: seq<File>): (n: Next<State>)
    ensures |accepted| == 0 ==> n == Next(s, [])
    ensures |accepted| > 0 ==> n.state == s.(isChecking := true)
    ensures |accepted| > 0 && accepted[0].mimeType == PlainText ==> n.effects == [ReadAsText(accepted[0])]
    ensures |accepted| > 0 && accepted[0].mimeType != PlainText ==> n.effects == [Send(UploadFile(accepted[0]))]
  {
    if |accepted| == 0 then Next(s, [])
    else
      var file := accepted[0];
      if file.mimeType == PlainText then Next(s.(isChecking := true), [ReadAsText(file)])
      else Next(s.(isChecking := true), [Send(UploadFile(file))])
  }

  /** The file reader delivered a plain-text file's content. */
  function FileRead(s: State, content: string): (n: Next<State>)
    ensures n.state == s.(text := content, isChecking := false) && n.effects == []
  {
    Next(s.(text := content, isChecking := false), [])
  }

  /** `e.msg` for each element of an array detail. Reading a field of a
      null or undefined element throws, and then there is no list. */
  function MessageTexts(h: Host, items: seq<Value>): (r: Option<seq<string>>)
    ensures r.Some? <==> forall i :: 0 <= i < |items| ==> !IsNullish(items[i])
    ensures r.Some? ==> |r.value| == |items|
    ensures r.Some? ==> forall i :: 0 <= i < |items| ==> r.value[i] == ElementText(h, Get(items[i], "msg"))
  {
    if items == [] then Some([])
    else if IsNullish(items[0]) then None
    else match MessageTexts(h, items[1..])
      case None => None
      case Some(rest) => Some([ElementText(h, Get(items[0], "msg"))] + rest)
  }

  /** The upload path's message for a failed upload, or None when building
      it throws. */
  function UploadErrorMessage(h: Host, f: Failure): (m: Option<Value>)
    ensures f.detail.Arr? ==> (m.Some? <==> forall i :: 0 <= i < |f.detail.items| ==> !IsNullish(f.detail.items[i]))
    ensures f.detail.Arr? && m.Some? ==>
      m.value == Str(JoinWith(MessageTexts(h, f.detail.items).value, FieldSeparator))
    ensures !f.detail.Arr? ==> m.Some?
    ensures (f.detail.Null? || f.detail.Obj?) ==> m == Some(Str(h.stringify(f.detail)))
    ensures !IsObjectType(f.detail) && Truthy(f.detail) ==> m == Some(f.detail)
    ensures !IsObjectType(f.detail) && !Truthy(f.detail) && Truthy(f.message) ==> m == Some(f.message)
    ensures !IsObjectType(f.detail) && !Truthy(f.detail) && !Truthy(f.message) ==> m == Some(Str(UploadFallback))
  {
    match f.detail
    case Arr(items) =>
      (match MessageTexts(h, items)
       case None => None
       case Some(texts) => Some(Str(JoinWith(texts, FieldSeparator))))
    case _ =>
      if IsObjectType(f.detail) then Some(Str(h.stringify(f.detail)))
      else Some(Or(f.detail, Or(f.message, Str(UploadFallback))))
  }

  /** An array detail with no entries, or a single entry whose message is
      empty, yields an empty message whatever the error's own message says:
      the error is set but no banner shows. */
  lemma EmptyFieldListHidesError(h: Host, items: seq<Value>, message: Value)
    requires forall i :: 0 <= i < |items| ==> !IsNullish(items[i])
    requires |items| == 0 || (|items| == 1 && ElementText(h, Get(items[0], "msg")) == [])
    ensures UploadErrorMessage(h, Failure(Arr(items), message)) == Some(Str([]))
    ensures !Truthy(UploadErrorMessage(h, Failure(Arr(items), message)).value)
  {
    var texts := MessageTexts(h, items).value;
    assert |texts| == |items|;
  }

  /** The upload settles. With a truthy task identifier the page navigates
      (and stays in its checking state); without one it alerts. A failure
      records the message and ends checking, unless building the message
      throws, in which case the rejection goes unhandled and nothing changes. */
  function Uploaded(h: Host, s: State, o: Outcome<Ticket>): (n: Next<State>)
    ensures n.state.text == s.text
    ensures Navigates(n.effects) <==> o.Ok? && Truthy(o.value.taskId)
    ensures o.Ok? && Truthy(o.value.taskId) ==>
      n.state == s.(navigatedTo := Some(ResultsPath(h, o.value.taskId)))
    ensures o.Ok? && !Truthy(o.value.taskId) ==>
      n.state == s.(isChecking := false) && n.effects == [Alert(NoTaskIdAlert)]
    ensures o.Err? && UploadErrorMessage(h, o.failure).Some? ==>
      n.state == s.(error := UploadErrorMessage(h, o.failure).value, isChecking := false) && n.effects == []
    ensures o.Err? && UploadErrorMessage(h, o.failure).None? ==> n == Next(s, [Unhandled])
  {
    match o
    case Ok(t) =>
      if Truthy(t.taskId) then
        var path := ResultsPath(h, t.taskId);
        assert Navigate(path) in [Navigate(path)];
        Next(s.(navigatedTo := Some(path)), [Navigate(path)])
      else Next(s.(isChecking := false), [Alert(NoTaskIdAlert)])
    case Err(f) =>
      match UploadErrorMessage(h, f)
      case Some(m) => Next(s.(error := m, isChecking := false), [])
      case None => Next(s, [Unhandled])
  }

  /** A plain-text drop loads the file's exact content into the editor and
      ends checking; it never uploads and never navigates. */
  lemma PlainTextDropLoadsEditor(s: State, accepted: seq<File>, content: string)
    requires |accepted| > 0 && accepted[0].mimeType == PlainText
    ensures !Sends(Dropped(s, accepted).effects) && !Navigates(Dropped(s, accepted).effects)
    ensures FileRead(Dropped(s, accepted).state, content).state
            == s.(text := content, isChecking := false)
  {
  }

  /** Any other drop uploads exactly that file and leaves the editor alone;
      it navigates exactly when the response carries a truthy task id. */
  lemma OtherDropUploads(h: Host, s: State, accepted: seq<File>, o: Outcome<Ticket>)
    requires |accepted| > 0 && accepted[0].mimeType != PlainText
    ensures Dropped(s, accepted).effects == [Send(UploadFile(accepted[0]))]
    ensures Uploaded(h, Dropped(s, accepted).state, o).state.text == s.text
    ensures Navigates(Uploaded(h, Dropped(s, accepted).state, o).effects)
            <==> o.Ok? && Truthy(o.value.taskId)
  {
  }

  // ---- the Analyze button ---------------------------------------------

  /** The Analyze button as the page configures it: the caller's `disabled`
      (empty text and no drag in progress) overrides `isLoading`. */
  function AnalyzeButton(s: State, dragActive: bool): Button.Rendered {
    Button.Render(map[
      "isLoading" := Bool(s.isChecking),
      "size" := Str("lg"),
      "disabled" := Bool(s.text == [] && !dragActive),
      "className" := Str("w-full sm:w-auto"),
      "children" := Str("Analyze Text")])
  }

  /** The button is disabled exactly for empty text with no drag active,
      whether or not a check is in flight; the spinner follows checking. */
  lemma AnalyzeDisabledIgnoresChecking(s: State, dragActive: bool)
    ensures AnalyzeButton(s, dragActive).disabled <==> s.text == [] && !dragActive
    ensures Button.Spinner in AnalyzeButton(s, dragActive).content <==> s.isChecking
  {
  }

  /** So a second submission can be started while the first is in flight. */
  lemma AnalyzeEnabledWhileChecking(s: State)
    requires s.isChecking && s.text != []
    ensures !AnalyzeButton(s, false).disabled
  {
    AnalyzeDisabledIgnoresChecking(s, false);
  }

  /** Whitespace-only text enables the button (its guard does not trim),
      yet pressing it does nothing (the handler does). */
  lemma WhitespaceEnablesButDoesNothing(s: State)
    requires s.text != [] && forall i :: 0 <= i < |s.text| ==> IsWhitespace(s.text[i])
    ensures !AnalyzeButton(s, false).disabled
    ensures CheckClicked(s) == Next(s, [])
  {
    AnalyzeDisabledIgnoresChecking(s, false);
    BlankIffAllWhitespace(s.text);
  }
}
