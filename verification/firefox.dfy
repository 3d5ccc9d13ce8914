/** The Firefox build's background script: the shared controller with the
    item id `ai-assistant-copy`, the title "🤖 AI Quick Copy" and copy
    messages tagged `copyType: "ID"`. The item is created when the script
    loads. */
module FirefoxBackground {
  import opened Wrappers
  import opened Messages
  import opened Background

  const ItemId: string := "ai-assistant-copy"
  const Title: string := "\U{1F916} AI Quick Copy"
  const Firefox: Build := Build(ItemId, Title, Some("ID"))

  /** State right after the script has loaded: no element seen yet, and the
      one menu item created with its base title */
  function Init(): (s: State)
    ensures s.slot == None && s.outbox == []
    ensures s.menu == MenuItem("ai-assistant-copy", "\U{1F916} AI Quick Copy", true)
  {
    Initial(Firefox)
  }

  /** The `runtime.onMessage` listener with this build's titles */
  function OnMessage(s: State, m: RuntimeMessage): (s': State)
    ensures m.kind != "elementInfo" ==> s' == s
    ensures m.kind == "elementInfo" ==> s'.slot == m.data && s'.outbox == s.outbox
    ensures m.kind == "elementInfo" && m.data.Some? && Truthy(m.data.value.id) ==>
              s'.menu == s.menu.(title := "\U{1F916} AI Quick Copy: \"" + m.data.value.id.value + "\"", enabled := true)
    ensures m.kind == "elementInfo" && m.data.Some? && !Truthy(m.data.value.id) ==>
              s'.menu == s.menu.(title := "\U{1F916} AI Quick Copy (no ID)", enabled := false)
    ensures m.kind == "elementInfo" && m.data.None? ==> s'.menu == s.menu
  {
    OnRuntimeMessage(Firefox, s, m)
  }

  /** The `contextMenus.onClicked` listener: a click on `ai-assistant-copy`
      while the slot holds a truthy id sends that id, tagged "ID", to the
      clicked tab; any other click sends nothing. A failed send is caught and
      only logged, so it leaves no trace in the state. */
  function OnClicked(s: State, c: Click): (s': State)
    ensures s'.slot == s.slot && s'.menu == s.menu
    ensures c.menuItemId == "ai-assistant-copy" && s.slot.Some? && Truthy(s.slot.value.id) ==>
              s'.outbox == s.outbox + [Delivery(c.tab, CopyMessage("copyToClipboard", s.slot.value.id.value, Some("ID")))]
    ensures !(c.menuItemId == "ai-assistant-copy" && s.slot.Some? && Truthy(s.slot.value.id)) ==>
              s'.outbox == s.outbox
  {
    Background.OnClicked(Firefox, s, c)
  }
}
