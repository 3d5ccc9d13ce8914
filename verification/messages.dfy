/** The records the two scripts exchange over the extension's runtime
    messaging channel. */
module Messages {
  import opened Wrappers

  const ElementInfoType: string := "elementInfo"
  const CopyToClipboardType: string := "copyToClipboard"

  /** What the content script reports about the right-clicked element.
      `id` and `classes` are None where the script sends `null`. */
  datatype ElementInfo = ElementInfo(id: Option<string>, classes: Option<string>, tagName: string, selector: string)

  /** A message arriving at the background script's `onMessage` listener:
      `{ type, data }`. `data` is None when the message carries none. */
  datatype RuntimeMessage = RuntimeMessage(kind: string, data: Option<ElementInfo>)

  /** `{ type: "copyToClipboard", text, copyType? }`, sent from the
      background script to a tab's content script */
  datatype CopyMessage = CopyMessage(kind: string, text: string, copyType: Option<string>)

  /** JavaScript truthiness of a string that may be `null`: neither null nor
      the empty string */
  predicate Truthy(s: Option<string>) {
    s.Some? && |s.value| > 0
  }
}
