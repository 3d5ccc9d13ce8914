/** The content script: the `elementInfo` record built when the user
    right-clicks, and the handling of a `copyToClipboard` request (the text
    handed to the clipboard writer and the confirmation banner shown). */
module Content {
  import opened Wrappers
  import opened Text
  import opened Dom
  import opened Selectors
  import opened Messages

  const CheckMark: string := "\U{2713} "
  const CopiedPrefix: string := "Copied: "

  /** The record built in the `contextmenu` handler: `id || null`,
      `className || null`, the lower-cased tag and the derived selector. */
  function Capture(e: Element): (info: ElementInfo)
    ensures info.id.Some? <==> HasId(e)
    ensures Truthy(info.id) <==> HasId(e)
    ensures info.id.Some? ==> info.id.value == e.id && info.selector == "#" + e.id
    ensures info.classes.Some? <==> e.className.Some? && e.className.value != ""
    ensures info.classes.Some? ==> info.classes == e.className
    ensures info.tagName == Lower(e.tagName)
    ensures info.selector == CssSelector(e)
  {
    ElementInfo(
      if HasId(e) then Some(e.id) else None,
      if e.className.Some? && e.className.value != "" then e.className else None,
      Lower(e.tagName),
      CssSelector(e))
  }

  /** The message the `contextmenu` listener sends to the background script */
  function OnContextMenu(e: Element): (m: RuntimeMessage)
    ensures m.kind == "elementInfo"
    ensures m.data.Some? && m.data.value.selector == CssSelector(e)
    ensures Truthy(m.data.value.id) <==> HasId(e)
    ensures m.data.value.id == (if HasId(e) then Some(e.id) else None)
    ensures m.data.value.classes == (if e.className.Some? && e.className.value != "" then e.className else None)
    ensures m.data.value.tagName == Lower(e.tagName)
    ensures m.data == Some(Capture(e))
  {
    RuntimeMessage(ElementInfoType, Some(Capture(e)))
  }

  /** What the page holds after copy requests: the text last handed to the
      clipboard writer and the one notification banner on screen. */
  datatype Page = Page(copied: Option<string>, banner: Option<string>)

  const BlankPage: Page := Page(None, None)

  /** `showNotification(message)`: any banner already shown is removed and
      a new one reading "✓ " followed by the message takes its place. */
  function ShowNotification(page: Page, message: string): (p: Page)
    ensures p.copied == page.copied
    ensures p.banner.Some?
    ensures |p.banner.value| == |message| + 2
    ensures p.banner.value[..2] == "\U{2713} " && p.banner.value[2..] == message
  {
    page.(banner := Some(CheckMark + message))
  }

  /** The `onMessage` listener: a `copyToClipboard` request hands its text
      to the clipboard writer and shows "✓ Copied: <text>"; any other
      message changes nothing. */
  function OnCopyRequest(page: Page, m: CopyMessage): (p: Page)
    ensures m.kind == "copyToClipboard" ==> p.copied == Some(m.text)
    ensures m.kind == "copyToClipboard" ==> p.banner == Some("\U{2713} Copied: " + m.text)
    ensures m.kind != "copyToClipboard" ==> p == page
  {
    if m.kind == CopyToClipboardType then
      assert CheckMark + (CopiedPrefix + m.text) == "\U{2713} Copied: " + m.text;
      ShowNotification(page.(copied := Some(m.text)), CopiedPrefix + m.text)
    else
      page
  }

  /** The banner names the copied text verbatim: it ends with that text */
  lemma {:induction false} BannerEndsWithText(page: Page, m: CopyMessage)
    requires m.kind == "copyToClipboard"
    ensures var b := OnCopyRequest(page, m).banner.value;
            |m.text| <= |b| && b[|b| - |m.text|..] == m.text
  {
    var b := OnCopyRequest(page, m).banner.value;
    assert b == ("\U{2713} Copied: ") + m.text;
  }

  /** Reads the copied text back out of a banner: what follows
      "✓ Copied: ", or nothing for a banner of another shape */
  function CopiedText(banner: string): Option<string> {
    var head := CheckMark + CopiedPrefix;
    if |banner| >= |head| && banner[..|head|] == head then Some(banner[|head|..]) else None
  }

  /** The banner names the copied text exactly: reading it back yields the
      text that was handed to the clipboard writer. */
  lemma BannerNamesText(page: Page, m: CopyMessage)
    requires m.kind == "copyToClipboard"
    ensures var p := OnCopyRequest(page, m);
            CopiedText(p.banner.value) == Some(m.text) == p.copied
  {
    var head := CheckMark + CopiedPrefix;
    var b := OnCopyRequest(page, m).banner.value;
    assert b == head + m.text;
    assert b[..|head|] == head;
    assert b[|head|..] == m.text;
  }

  /** Two notifications in a row leave one banner, showing the second */
  lemma LatestNotificationWins(page: Page, first: string, second: string)
    ensures ShowNotification(ShowNotification(page, first), second).banner == Some(CheckMark + second)
  {
  }
}
