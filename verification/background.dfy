/** The background script's context-menu controller, common to both builds.

    The script keeps one global slot, `lastElementInfo`, and one menu item.
    An `elementInfo` message overwrites the slot and relabels the item; a
    click on the item sends the slot's id to the clicked tab. The builds
    differ only in the literals gathered in `Build`. Messages sent to a tab
    are appended to an outbox. */
module Background {
  import opened Wrappers
  import opened Messages

  /** The literals of one build: the menu item's id, its base title, and the
      `copyType` field (if any) of the copy message it sends. */
  datatype Build = Build(itemId: string, baseTitle: string, copyType: Option<string>)

  datatype MenuItem = MenuItem(id: string, title: string, enabled: bool)

  /** A message handed to `tabs.sendMessage`, with its target tab */
  datatype Delivery = Delivery(tab: int, message: CopyMessage)

  datatype State = State(slot: Option<ElementInfo>, menu: MenuItem, outbox: seq<Delivery>)

  /** A click on a context-menu item: its id and the tab it happened in */
  datatype Click = Click(menuItemId: string, tab: int)

  datatype Event =
    | Received(message: RuntimeMessage)
    | Clicked(click: Click)

  /** An empty slot and the freshly created menu item. `contextMenus.create`
      leaves the item enabled, since no `enabled` flag is passed. */
  function Initial(b: Build): State {
    State(None, MenuItem(b.itemId, b.baseTitle, true), [])
  }

  /** The title shown for an element with an id */
  function IdTitle(b: Build, id: string): string {
    b.baseTitle + ": \"" + id + "\""
  }

  /** The title shown for an element without an id */
  function NoIdTitle(b: Build): string {
    b.baseTitle + " (no ID)"
  }

  /** The `contextMenus.update` the `elementInfo` handler issues for an id */
  function Relabel(b: Build, menu: MenuItem, id: Option<string>): MenuItem {
    if Truthy(id) then menu.(title := IdTitle(b, id.value), enabled := true)
    else menu.(title := NoIdTitle(b), enabled := false)
  }

  /** The `runtime.onMessage` listener. An `elementInfo` message overwrites
      the slot with its data; with data present the item is relabelled and
      enabled exactly when the data's id is truthy. Without data the slot
      becomes `undefined` and reading `.id` from it throws before the menu is
      touched. Any other message type is ignored. */
  function OnRuntimeMessage(b: Build, s: State, m: RuntimeMessage): (s': State)
    ensures m.kind != "elementInfo" ==> s' == s
    ensures m.kind == "elementInfo" ==> s'.slot == m.data && s'.outbox == s.outbox && s'.menu.id == s.menu.id
    ensures m.kind == "elementInfo" && m.data.Some? ==> (s'.menu.enabled <==> Truthy(m.data.value.id))
    ensures m.kind == "elementInfo" && m.data.Some? ==>
              s'.menu.title == (if Truthy(m.data.value.id) then IdTitle(b, m.data.value.id.value) else NoIdTitle(b))
    ensures m.kind == "elementInfo" && m.data.None? ==> s'.menu == s.menu
  {
    if m.kind != ElementInfoType then s
    else
      match m.data
      case None => s.(slot := None)
      case Some(info) => s.(slot := Some(info), menu := Relabel(b, s.menu, info.id))
  }

  /** The click guard: the build's item was clicked and the slot holds a
      truthy id */
  predicate ClickCopies(b: Build, s: State, c: Click) {
    c.menuItemId == b.itemId && s.slot.Some? && Truthy(s.slot.value.id)
  }

  /** The `contextMenus.onClicked` listener. Exactly one copy message, to the
      clicked tab and carrying the slot's id, is sent when the guard holds,
      and none otherwise; the slot and the menu are left alone. */
  function OnClicked(b: Build, s: State, c: Click): (s': State)
    ensures s'.slot == s.slot && s'.menu == s.menu
    ensures |s'.outbox| == |s.outbox| + (if ClickCopies(b, s, c) then 1 else 0)
    ensures s'.outbox[..|s.outbox|] == s.outbox
    ensures ClickCopies(b, s, c) ==>
              s'.outbox[|s.outbox|] == Delivery(c.tab, CopyMessage("copyToClipboard", s.slot.value.id.value, b.copyType))
  {
    if ClickCopies(b, s, c) then
      s.(outbox := s.outbox + [Delivery(c.tab, CopyMessage(CopyToClipboardType, s.slot.value.id.value, b.copyType))])
    else
      s
  }

  function Handle(b: Build, s: State, ev: Event): State {
    match ev
    case Received(m) => OnRuntimeMessage(b, s, m)
    case Clicked(c) => OnClicked(b, s, c)
  }

  /** The state after handling the events in order */
  function Run(b: Build, s: State, events: seq<Event>): State
    decreases |events|
  {
    if events == [] then s
    else Handle(b, Run(b, s, events[..|events| - 1]), events[|events| - 1])
  }

  /** Two events are handled one after the other */
  lemma RunTwo(b: Build, s: State, first: Event, second: Event)
    ensures Run(b, s, [first, second]) == Handle(b, Handle(b, s, first), second)
  {
    var events := [first, second];
    var one := events[..1];
    assert one[..|one| - 1] == [] && one[|one| - 1] == first;
    assert Run(b, s, one[..|one| - 1]) == s;
    assert Run(b, s, one) == Handle(b, s, first);
  }

  predicate IsInfoEvent(ev: Event) {
    ev.Received? && ev.message.kind == ElementInfoType
  }

  /** The data of the most recent `elementInfo` message, if there was one */
  function LastSlotWrite(events: seq<Event>): Option<Option<ElementInfo>>
  {
    if events == [] then None
    else if IsInfoEvent(events[|events| - 1]) then Some(events[|events| - 1].message.data)
    else LastSlotWrite(events[..|events| - 1])
  }

  /** The payload of the most recent `elementInfo` message that carried one */
  function LastLabel(events: seq<Event>): Option<ElementInfo>
  {
    if events == [] then None
    else
      var ev := events[|events| - 1];
      if IsInfoEvent(ev) && ev.message.data.Some? then ev.message.data
      else LastLabel(events[..|events| - 1])
  }

  /** Last write wins: after any sequence of events the slot holds the data
      of the latest `elementInfo` message and the menu shows the latest
      payload, each unchanged from the start when there was none. Clicks and
      other messages never affect either. */
  lemma {:induction false} LastWriteWins(b: Build, s: State, events: seq<Event>)
    ensures Run(b, s, events).menu.id == s.menu.id
    ensures Run(b, s, events).slot == (if LastSlotWrite(events).Some? then LastSlotWrite(events).value else s.slot)
    ensures Run(b, s, events).menu ==
              (if LastLabel(events).Some? then Relabel(b, s.menu, LastLabel(events).value.id) else s.menu)
    decreases |events|
  {
    if events != [] {
      LastWriteWins(b, s, events[..|events| - 1]);
    }
  }

  /** The outbox only grows, and everything added to it is a copy message
      of this build carrying a non-empty text. */
  lemma {:induction false} OutboxOnlyGrows(b: Build, s: State, events: seq<Event>)
    ensures var t := Run(b, s, events);
            && |s.outbox| <= |t.outbox|
            && t.outbox[..|s.outbox|] == s.outbox
            && forall i :: |s.outbox| <= i < |t.outbox| ==>
                 && t.outbox[i].message.kind == "copyToClipboard"
                 && |t.outbox[i].message.text| > 0
                 && t.outbox[i].message.copyType == b.copyType
    decreases |events|
  {
    if events != [] {
      var before := Run(b, s, events[..|events| - 1]);
      OutboxOnlyGrows(b, s, events[..|events| - 1]);
      var t := Run(b, s, events);
      assert t == Handle(b, before, events[|events| - 1]);
      assert t.outbox[..|before.outbox|] == before.outbox;
      assert t.outbox[..|s.outbox|] == before.outbox[..|s.outbox|];
    }
  }

  /** The menu's enabled flag agrees with the slot */
  predicate Consistent(s: State) {
    s.menu.enabled <==> s.slot.Some? && Truthy(s.slot.value.id)
  }

  /** The freshly created item is enabled while the slot is still empty, so
      the flag and the slot disagree until the first `elementInfo` arrives,
      and a click then sends nothing. */
  lemma InitialStateNotConsistent(b: Build, c: Click)
    ensures !Consistent(Initial(b))
    ensures Initial(b).menu.enabled
    ensures OnClicked(b, Initial(b), c) == Initial(b)
  {
  }

  /** Once an `elementInfo` message with data has been handled, the flag
      agrees with the slot, and every event except an `elementInfo` message
      without data keeps it that way. */
  lemma ConsistencyKept(b: Build, s: State, ev: Event)
    requires Consistent(s) || (IsInfoEvent(ev) && ev.message.data.Some?)
    requires !(IsInfoEvent(ev) && ev.message.data.None?)
    ensures Consistent(Handle(b, s, ev))
  {
  }

  /** In a consistent state an enabled item always copies when clicked */
  lemma EnabledItemCopies(b: Build, s: State, tab: int)
    requires Consistent(s)
    requires s.menu.enabled
    ensures ClickCopies(b, s, Click(b.itemId, tab))
    ensures OnClicked(b, s, Click(b.itemId, tab)).outbox ==
              s.outbox + [Delivery(tab, CopyMessage("copyToClipboard", s.slot.value.id.value, b.copyType))]
  {
  }

  /** The slot is one global variable: an element reported from any tab is
      what a later click in any tab copies, and the copy goes to the tab the
      click happened in. */
  lemma GlobalSlotServesEveryTab(b: Build, s: State, info: ElementInfo, tab: int)
    requires Truthy(info.id)
    ensures var t := Run(b, s, [Received(RuntimeMessage("elementInfo", Some(info))), Clicked(Click(b.itemId, tab))]);
            t.outbox == s.outbox + [Delivery(tab, CopyMessage("copyToClipboard", info.id.value, b.copyType))]
  {
    RunTwo(b, s, Received(RuntimeMessage(ElementInfoType, Some(info))), Clicked(Click(b.itemId, tab)));
  }

  /** Reads the id back out of a menu title: the text between the quote
      after `<base title>: ` and the closing quote */
  function IdFromTitle(b: Build, title: string): Option<string> {
    var open := b.baseTitle + ": \"";
    if |title| > |open| && title[..|open|] == open && title[|title| - 1] == '"' then
      Some(title[|open|..|title| - 1])
    else
      None
  }

  /** The title names the id: reading it back yields exactly the id when the
      id is truthy, and nothing for the "(no ID)" title. */
  lemma TitleNamesId(b: Build, menu: MenuItem, id: Option<string>)
    ensures IdFromTitle(b, Relabel(b, menu, id).title) == (if Truthy(id) then id else None)
  {
    var open := b.baseTitle + ": \"";
    var title := Relabel(b, menu, id).title;
    if Truthy(id) {
      assert title == open + id.value + "\"";
      assert title[..|open|] == open;
      assert title[|open|..|title| - 1] == id.value;
    } else {
      assert title == b.baseTitle + " (no ID)";
      if |title| > |open| {
        assert title[|b.baseTitle|] == ' ';
        assert open[|b.baseTitle|] == ':';
        assert title[..|open|] != open;
      }
    }
  }
}
