/** What a page asks of the outside world when it handles an event. The
    browser APIs behind each effect (object URLs, anchors, the clipboard,
    FileReader, timers, alerts) are not modelled beyond this record. */
module Browser {
  import opened Gateway

  datatype Effect =
    | Send(call: Call)                          // a gateway request goes out
    | Navigate(path: string)
    | Alert(message: string)
    | SaveBlob(blob: Blob, filename: string)    // object URL, anchor click, revoke
    | SaveUrl(url: string, filename: string)    // data: URL, anchor click
    | WriteClipboard(text: string)
    | StartTimer(millis: nat)
    | ReadAsText(file: File)
    | Unhandled                                 // an async handler rejects with nobody to catch it

  /** The state a handler leaves behind and the effects it performed. */
  datatype Next<S> = Next(state: S, effects: seq<Effect>)

  predicate Sends(effects: seq<Effect>) {
    exists e :: e in effects && e.Send?
  }

  predicate Navigates(effects: seq<Effect>) {
    exists e :: e in effects && e.Navigate?
  }
}
