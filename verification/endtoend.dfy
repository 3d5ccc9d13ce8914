/** The whole copy flow across the two scripts: a right-click reports the
    element, the menu is relabelled, a click sends the id back to the tab,
    and the content script copies it and confirms. */
module EndToEnd {
  import opened Wrappers
  import opened Text
  import opened ClassList
  import opened Dom
  import opened Selectors
  import opened Messages
  import opened Content
  import opened Background
  import opened FirefoxBackground

  /** The two events of one use: the report sent on right-click, then a click
      on the build's menu item in the given tab */
  function RightClickThenCopy(b: Build, e: Element, tab: int): seq<Event> {
    [Received(OnContextMenu(e)), Clicked(Click(b.itemId, tab))]
  }

  /** For an element with an id, in either build and from any state: the
      item is enabled and titled with the id, which reads back from the
      title; exactly one copy message carrying the id goes to the tab; and
      the page then holds the id and shows "✓ Copied: <id>". */
  lemma CopiesElementId(b: Build, s: State, e: Element, tab: int, page: Page)
    requires HasId(e)
    ensures var t := Run(b, s, RightClickThenCopy(b, e, tab));
            && t.menu.enabled
            && t.menu.title == b.baseTitle + ": \"" + e.id + "\""
            && IdFromTitle(b, t.menu.title) == Some(e.id)
            && t.outbox == s.outbox + [Delivery(tab, CopyMessage("copyToClipboard", e.id, b.copyType))]
            && OnCopyRequest(page, t.outbox[|s.outbox|].message).copied == Some(e.id)
            && OnCopyRequest(page, t.outbox[|s.outbox|].message).banner == Some("\U{2713} Copied: " + e.id)
  {
    var m := OnContextMenu(e);
    RunTwo(b, s, Received(m), Clicked(Click(b.itemId, tab)));
    var mid := Handle(b, s, Received(m));
    assert mid.slot == m.data && Truthy(m.data.value.id) && m.data.value.id.value == e.id;
    TitleNamesId(b, s.menu, m.data.value.id);
  }

  /** For an element without an id: the item is disabled with the "(no ID)"
      title and a click on it sends nothing, whatever was reported before. */
  lemma NoIdCopiesNothing(b: Build, s: State, e: Element, tab: int)
    requires !HasId(e)
    ensures var t := Run(b, s, RightClickThenCopy(b, e, tab));
            && !t.menu.enabled
            && t.menu.title == b.baseTitle + " (no ID)"
            && IdFromTitle(b, t.menu.title) == None
            && t.outbox == s.outbox
  {
    var m := OnContextMenu(e);
    RunTwo(b, s, Received(m), Clicked(Click(b.itemId, tab)));
    TitleNamesId(b, s.menu, m.data.value.id);
  }

  /** A small page: `<html><head/><body><nav/><p/><div id="card-7"
      class="card active">...</div></body></html>` */
  const Html: Element := Element("HTML", "", Some(""), Child(DocumentNode, 1, 1))
  const Body: Element := Element("BODY", "", Some(""), Child(ElementNode(Html), 2, 2))
  const Card: Element := Element("DIV", "card-7", Some("card active"), Child(ElementNode(Body), 3, 3))

  /** An element with an id is named by its id alone, however deep */
  lemma CardSelector()
    ensures CssSelector(Card) == "#card-7"
  {
  }

  /** The second of three children of an element with an id, a span
      without one, is described from that element down: its segment holds
      the lower-cased tag, its two class names however they are spaced in
      the attribute, and its position. */
  lemma LabelSelector(card: Element, span: Element, first: string, second: string)
    requires HasId(card)
    requires !HasId(span) && span.up == Child(ElementNode(card), 3, 2)
    requires Lower(span.tagName) == "span"
    requires span.className.Some? && Words(span.className.value) == [first, second]
    ensures CssSelector(span) == "#" + card.id + " > " + ("span" + ("." + first + "." + second) + ":nth-child(2)")
  {
    ChildOfIdElement(card, span);
    TwoClasses(span.className.value, first, second);
    SecondChild(span);
  }

  lemma ChildOfIdElement(parent: Element, e: Element)
    requires HasId(parent) && !HasId(e)
    requires e.up.Child? && e.up.parent == ElementNode(parent)
    ensures CssSelector(e) == "#" + parent.id + Combinator + PlainSegment(e)
  {
    assert ParentElement(e) == parent;
  }

  lemma SecondChild(e: Element)
    requires e.up.Child? && e.up.siblings > 1 && e.up.position == 2
    ensures NthChildSuffix(e) == ":nth-child(2)"
  {
    assert Decimal(2) == "2";
  }

  lemma TwoClasses(c: string, first: string, second: string)
    requires Words(c) == [first, second]
    ensures ClassSuffix(Some(c)) == "." + first + "." + second
  {
    WordsEmptyIff(c);
    assert c != [];
    var classes := ClassTokens(c);
    assert classes == [first, second];
    assert classes[1..] == [second];
    assert Join(classes, ".") == first + "." + second;
    assert ClassSuffix(Some(c)) == "." + ((first + ".") + second);
    AppendAssoc(".", first + ".", second);
    AppendAssoc(".", first, ".");
  }

  /** Without any id the walk reaches the root element; `html` is the
      document's only element child, so it gets no position, while `body`
      is the second of two. */
  lemma BodySelector(html: Element, body: Element)
    requires html.id == "" && Lower(html.tagName) == "html" && html.className == Some("")
    requires html.up == Child(DocumentNode, 1, 1)
    requires body.id == "" && Lower(body.tagName) == "body" && body.className == Some("")
    requires body.up == Child(ElementNode(html), 2, 2)
    ensures CssSelector(body) == "html > body:nth-child(2)"
  {
    assert CssSelector(html) == "html" by {
      assert PlainSegment(html) == "html" + "" + "";
    }
    assert PlainSegment(body) == "body" + "" + ":nth-child(2)" by {
      SecondChild(body);
    }
    assert ParentElement(body) == html;
    BodyText();
  }

  /** The literal concatenation behind BodySelector, kept apart so the
      string reasoning runs without the selector definitions in scope */
  lemma BodyText()
    ensures "html" + Combinator + ("body" + "" + ":nth-child(2)") == "html > body:nth-child(2)"
  {
  }

  /** The upper-case node names the DOM reports for these tags lower-case as
      expected */
  lemma TagNamesLowered()
    ensures Lower("HTML") == "html" && Lower("BODY") == "body" && Lower("SPAN") == "span"
  {
    var html, body, span := Lower("HTML"), Lower("BODY"), Lower("SPAN");
    assert html[0] == 'h' && html[1] == 't' && html[2] == 'm' && html[3] == 'l';
    assert body[0] == 'b' && body[1] == 'o' && body[2] == 'd' && body[3] == 'y';
    assert span[0] == 's' && span[1] == 'p' && span[2] == 'a' && span[3] == 'n';
  }

  /** Right-clicking the card and choosing the Firefox item copies
      "card-7" and shows "✓ Copied: card-7" */
  lemma CardCopiedInFirefox(tab: int)
    ensures var t := Run(Firefox, FirefoxBackground.Init(), RightClickThenCopy(Firefox, Card, tab));
            && t.menu.title == "\U{1F916} AI Quick Copy: \"card-7\""
            && t.outbox == [Delivery(tab, CopyMessage("copyToClipboard", "card-7", Some("ID")))]
            && OnCopyRequest(BlankPage, t.outbox[0].message).banner == Some("\U{2713} Copied: card-7")
  {
    CopiesElementId(Firefox, FirefoxBackground.Init(), Card, tab, BlankPage);
    var t := Run(Firefox, FirefoxBackground.Init(), RightClickThenCopy(Firefox, Card, tab));
    assert |FirefoxBackground.Init().outbox| == 0;
    assert t.outbox[0].message.text == "card-7";
    assert OnCopyRequest(BlankPage, t.outbox[0].message).banner == Some("\U{2713} Copied: " + Card.id);
    assert "\U{2713} Copied: " + Card.id == "\U{2713} Copied: card-7";
  }
}
