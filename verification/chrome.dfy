/** The Chrome build's background script: the shared controller with the
    item id `ai-quick-copy`, the title "🤖 Quick ID Copy" and copy messages
    without a `copyType` field. The item is created by the `onInstalled`
    listener; the model starts from the state after installation. */
module ChromeBackground {
  import opened Wrappers
  import opened Messages
  import opened Background

  const ItemId: string := "ai-quick-copy"
  const Title: string := "\U{1F916} Quick ID Copy"
  const Chrome: Build := Build(ItemId, Title, None)

  /** State once `onInstalled` has created the menu item */
  function Installed(): (s: State)
    ensures s.slot == None && s.outbox == []
    ensures s.menu == MenuItem("ai-quick-copy", "\U{1F916} Quick ID Copy", true)
  {
    Initial(Chrome)
  }

  /** The `runtime.onMessage` listener with this build's titles */
  function OnMessage(s: State, m: RuntimeMessage): (s': State)
    ensures m.kind != "elementInfo" ==> s' == s
    ensures m.kind == "elementInfo" ==> s'.slot == m.data && s'.outbox == s.outbox
    ensures m.kind == "elementInfo" && m.data.Some? && Truthy(m.data.value.id) ==>
              s'.menu == s.menu.(title := "\U{1F916} Quick ID Copy: \"" + m.data.value.id.value + "\"", enabled := true)
    ensures m.kind == "elementInfo" && m.data.Some? && !Truthy(m.data.value.id) ==>
              s'.menu == s.menu.(title := "\U{1F916} Quick ID Copy (no ID)", enabled := false)
    ensures m.kind == "elementInfo" && m.data.None? ==> s'.menu == s.menu
  {
    OnRuntimeMessage(Chrome, s, m)
  }

  /** The `contextMenus.onClicked` listener: a click on `ai-quick-copy` while
      the slot holds a truthy id sends that id, with no `copyType`, to the
      clicked tab; any other click sends nothing. */
  function OnClicked(s: State, c: Click): (s': State)
    ensures s'.slot == s.slot && s'.menu == s.menu
    ensures c.menuItemId == "ai-quick-copy" && s.slot.Some? && Truthy(s.slot.value.id) ==>
              s'.outbox == s.outbox + [Delivery(c.tab, CopyMessage("copyToClipboard", s.slot.value.id.value, None))]
    ensures !(c.menuItemId == "ai-quick-copy" && s.slot.Some? && Truthy(s.slot.value.id)) ==>
              s'.outbox == s.outbox
  {
    Background.OnClicked(Chrome, s, c)
  }

  /** A click on the Firefox build's item id does nothing in this build */
  lemma ForeignItemIgnored(s: State, tab: int)
    ensures OnClicked(s, Click("ai-assistant-copy", tab)) == s
  {
  }
}
