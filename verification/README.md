# Copy Element ID — a Dafny model

A model of the "Copy Element ID" browser extension in its Chrome and
Firefox builds. The extension adds one context-menu item. Right-clicking an
element makes the content script build a record of it: its id, its
`className`, its lower-cased tag and a CSS selector. The record goes to the
background script. That script keeps the last record in one global slot and
relabels the item: with the element's id and enabled when there is one, or
"(no ID)" and disabled when there is not. Choosing the item sends the id back
to the tab. The content script then copies the id and shows a
"✓ Copied: <id>" banner.

Modules, one per file:

- `Wrappers` — `Option`.
- `Text` — the ECMAScript white-space set, ASCII lower-casing, `join`,
  splitting on a character, decimal numerals.
- `ClassList` — `className.trim().split(/\s+/).filter(c => c)`, written out
  step by step and proved equal to an independent reference tokenisation
  (`Words`: the maximal runs without white space).
- `Dom` — an element with its id, `className` and the chain of nodes above
  it. Each parent link records the parent node, the parent's number of element
  children, and the element's 1-based position among them.
- `Selectors` — `getCSSSelector`. `CssSelector` is a recursive reference
  definition. `GetCssSelector` is the loop as the script runs it, proved to
  compute the same string.
- `Messages` — the records exchanged over runtime messaging, and JavaScript
  truthiness of a nullable string.
- `Content` — the `contextmenu` listener, the `copyToClipboard` listener and
  the notification banner.
- `Background` — the background script shared by both builds, over a `Build`
  holding each build's literals: the slot, the menu item, and an outbox of the
  messages sent to tabs.
- `FirefoxBackground`, `ChromeBackground` — the two builds' literals and
  listeners.
- `EndToEnd` — the round trip across both scripts, plus worked examples on a
  small page.

Some consequences of the code worth stating:

- `contextMenus.create` is given no `enabled` flag, so the item starts
  enabled while the slot is still empty.
  `Background.InitialStateNotConsistent` records this: until the first report
  arrives, the item is enabled, and a click on it does nothing.
- The slot is one global variable shared by all tabs.
- Titles show the id in full, with no truncation.
- Neither the content script nor the background scripts compute an XPath,
  and the menu has only the one quick-copy item.

## Model

| member | source | states |
|---|---|---|
| `Selectors.CssSelector` | copy-element-id-extension-chrome/content.js:6-41 | An element with a truthy id is `#id`, whatever its ancestry. An element without one extends its parent element's selector by " > " and its own segment. When its parent is not an element, its own segment is the whole selector. |
| `Selectors.GetCssSelector` | copy-element-id-extension-chrome/content.js:6-41 | The loop, with its early return, `unshift` and `join(' > ')`, returns exactly the selector of the recursive reference definition. |
| `Selectors.BuildSegment` | copy-element-id-extension-chrome/content.js:13-34 | One loop level for an element without an id is the lower-cased node name, then "." before each reference class token (nothing when `className` is not a string or only white space), then `:nth-child(<position>)` exactly when the parent node has more than one element child. It agrees with the segment the reference selector uses. |
| `Selectors.WalkDescribesAncestors` | copy-element-id-extension-chrome/content.js:12-38 | The walk visits the ancestors from the element upward. It stops at the first ancestor with an id, or at the topmost element when there is none. Only that first step can be an id. Step i describes the ancestor at distance n-1-i. |
| `Selectors.FirstIdAncestorHeadsPath` | copy-element-id-extension-chrome/content.js:15-18 | If ancestor k is the nearest one with an id, the path has k + 1 segments and starts with that ancestor's `#id`. |
| `Selectors.NoIdPathSpansChain` | copy-element-id-extension-chrome/content.js:12-37 | With no id anywhere on the chain, the path has one segment per element and starts with the topmost element. |
| `Selectors.SelectorEndsWithOwnSegment` | copy-element-id-extension-chrome/content.js:36-40 | The selector always ends with the element's own segment. |
| `Selectors.ClassSuffixEmptyIff` | copy-element-id-extension-chrome/content.js:19-23 | The class part is empty exactly when `className` is not a string or holds only white space. Otherwise it starts with a dot. |
| `Selectors.ClassSuffixListsClasses` | copy-element-id-extension-chrome/content.js:19-23 | For any `className` that is not all white space, the class part is "." followed by the class tokens joined by dots, dotted class names included. When no token contains a dot, splitting it on dots gives the tokens back. |
| `Selectors.NthChildPresentIff` | copy-element-id-extension-chrome/content.js:27-34 | `:nth-child(...)` is added exactly when the element has a parent node with more than one element child. |
| `Selectors.NthChildIndexInRange` | copy-element-id-extension-chrome/content.js:29-32 | In a consistent tree, the number inside `:nth-child(...)` reads back as the element's 1-based position, which lies between 1 and the child count. |
| `Selectors.PlainSegmentStartsWithTag` | copy-element-id-extension-chrome/content.js:13-32 | A segment starts with the lower-cased tag, which holds no upper-case ASCII letter. The class part and the position part follow. |
| `ClassList.ClassTokens` | copy-element-id-extension-chrome/content.js:20 | The trim, split and filter pipeline yields exactly the reference tokens. Every token is non-empty and free of white space. There are no tokens exactly when the string is all white space. |
| `ClassList.Words` | copy-element-id-extension-chrome/content.js:20 | Reference tokens: non-empty, without white space, and together holding exactly the string's non-white-space characters, in order. |
| `ClassList.SplitRunsAreWords` | copy-element-id-extension-chrome/content.js:20 | Splitting on white-space runs and dropping empty pieces gives the reference tokens, whatever white space surrounds the string. |
| `ClassList.WordsOfTrim` | copy-element-id-extension-chrome/content.js:20 | Trimming does not change the tokens. |
| `ClassList.WordsOfJoin` | copy-element-id-extension-chrome/content.js:20 | Tokenising class names joined by single spaces gives the same class names back. |
| `Text.SplitJoinRoundTrip` | copy-element-id-extension-chrome/content.js:22 | Joining parts with a character none of them contains, then splitting on that character, gives the parts back. |
| `Text.DecimalRoundTrip` | copy-element-id-extension-chrome/content.js:32 | The decimal numeral written for the child index reads back as that index. |
| `Text.Lower` | copy-element-id-extension-chrome/content.js:13 | Lower-casing keeps the length, leaves no upper-case ASCII letter, and maps each character by itself. |
| `Content.Capture` | copy-element-id-extension-chrome/content.js:48-53 | The record carries the id exactly when it is truthy, with the selector then `#id`. It carries `className` exactly when that is a non-empty string. It also holds the lower-cased tag and the element's selector. |
| `Content.OnContextMenu` | copy-element-id-extension-chrome/content.js:44-60 | The report is an `elementInfo` message whose data is the captured record: the id when it is truthy and null otherwise, the `className` exactly when it is a non-empty string, the lower-cased tag and the element's selector. |
| `Content.ShowNotification` | copy-element-id-extension-chrome/content.js:96-106 | Any earlier banner is replaced by one reading "✓ " followed by the message. |
| `Content.OnCopyRequest` | copy-element-id-extension-chrome/content.js:63-68 | A `copyToClipboard` request copies its text and shows "✓ Copied: <text>". Any other message changes nothing. |
| `Content.BannerEndsWithText` | copy-element-id-extension-chrome/content.js:66 | The banner ends with the copied text verbatim. |
| `Content.BannerNamesText` | copy-element-id-extension-chrome/content.js:63-68 | Reading the text after "✓ Copied: " back out of the banner yields exactly the text handed to the clipboard writer. |
| `Content.LatestNotificationWins` | copy-element-id-extension-chrome/content.js:97-101 | After two notifications only the second banner is shown. This holds by construction, since the page has one banner field; it documents the removal of the old banner. |
| `Background.OnRuntimeMessage` | copy-element-id-extension/background.js:13-30 | An `elementInfo` message overwrites the slot. With data present, the item is retitled `<base>: "<id>"` and enabled when the id is truthy, and retitled `<base> (no ID)` and disabled otherwise. Without data, the handler throws before touching the menu. Other messages change nothing. |
| `Background.OnClicked` | copy-element-id-extension/background.js:33-46 | When the build's item is clicked and the slot holds a truthy id, exactly one copy message with that id goes to the clicked tab. Otherwise nothing is sent. The slot and the menu are never changed. |
| `Background.LastWriteWins` | copy-element-id-extension/background.js:15-28 | After any event sequence, the slot holds the latest `elementInfo` data and the menu shows the latest payload. Clicks and other messages affect neither. |
| `Background.OutboxOnlyGrows` | copy-element-id-extension/background.js:37-41 | Sent messages are never withdrawn. Every message added is a copy message of the build, with non-empty text. |
| `Background.InitialStateNotConsistent` | copy-element-id-extension/background.js:3-10 | The freshly created item is enabled while the slot is empty, and a click then sends nothing. |
| `Background.ConsistencyKept` | copy-element-id-extension/background.js:17-28 | Once a report with data has arrived, the enabled flag agrees with the slot, and every event except a report without data keeps it so. |
| `Background.EnabledItemCopies` | copy-element-id-extension/background.js:18-41 | In a consistent state, a click on the enabled item always sends the slot's id. |
| `Background.GlobalSlotServesEveryTab` | copy-element-id-extension/background.js:3-41 | A report from any tab is what a later click in any tab copies, and the copy goes to the tab that was clicked. |
| `Background.TitleNamesId` | copy-element-id-extension/background.js:18-28 | Reading the quoted id back out of the title yields exactly the truthy id. The "(no ID)" title yields nothing. |
| `FirefoxBackground.Init` | copy-element-id-extension/background.js:3-10 | Empty slot, nothing sent, and the item `ai-assistant-copy` titled "🤖 AI Quick Copy". |
| `FirefoxBackground.OnMessage` | copy-element-id-extension/background.js:13-30 | The Firefox titles: `🤖 AI Quick Copy: "<id>"` (enabled) and `🤖 AI Quick Copy (no ID)` (disabled). |
| `FirefoxBackground.OnClicked` | copy-element-id-extension/background.js:33-46 | A click on `ai-assistant-copy` with a truthy id sends `{type: "copyToClipboard", text: id, copyType: "ID"}` to the tab. Any other click sends nothing. |
| `ChromeBackground.Installed` | copy-element-id-extension-chrome/background.js:3-12 | After installation: empty slot, nothing sent, and the item `ai-quick-copy` titled "🤖 Quick ID Copy". |
| `ChromeBackground.OnMessage` | copy-element-id-extension-chrome/background.js:15-32 | The Chrome titles: `🤖 Quick ID Copy: "<id>"` (enabled) and `🤖 Quick ID Copy (no ID)` (disabled). |
| `ChromeBackground.OnClicked` | copy-element-id-extension-chrome/background.js:35-43 | A click on `ai-quick-copy` with a truthy id sends `{type: "copyToClipboard", text: id}`, with no `copyType`. Any other click sends nothing. |
| `ChromeBackground.ForeignItemIgnored` | copy-element-id-extension-chrome/background.js:36 | A click carrying the Firefox build's item id does nothing in the Chrome build. Worked example, by evaluation of the guard on two literals. |
| `EndToEnd.CopiesElementId` | copy-element-id-extension-chrome/content.js:44-68 | For an element with an id, in either build and from any state, a right-click then a click enables the item and titles it with the id, which reads back from the title. Exactly one copy message with the id goes to the clicked tab, and the page, with the Chrome content script, then holds the id and shows "✓ Copied: <id>". |
| `EndToEnd.NoIdCopiesNothing` | copy-element-id-extension/background.js:23-34 | For an element without an id, the item is disabled and titled "(no ID)", and a click sends nothing. |
| `EndToEnd.CardSelector` | copy-element-id-extension-chrome/content.js:7-9 | On the example page, the element with id `card-7` has the selector `#card-7`. Worked example, by evaluation of the id branch. |
| `EndToEnd.LabelSelector` | copy-element-id-extension-chrome/content.js:15-36 | A span without an id, second of three children of an element with an id, has the selector `#<id> > span.<a>.<b>:nth-child(2)`. This holds however its two class names are spaced. |
| `EndToEnd.BodySelector` | copy-element-id-extension-chrome/content.js:12-40 | Without ids, `body` (second child of the only root element `html`) has the selector `html > body:nth-child(2)`. |
| `EndToEnd.TagNamesLowered` | copy-element-id-extension-chrome/content.js:13 | Worked example, by evaluation: "HTML", "BODY" and "SPAN" lower-case to "html", "body" and "span". |
| `EndToEnd.CardCopiedInFirefox` | copy-element-id-extension/background.js:18-41 | On a fresh Firefox background, copying the `card-7` element gives the title `🤖 AI Quick Copy: "card-7"`, sends one message with text "card-7" and copyType "ID", and the page (with the Chrome content script) shows "✓ Copied: card-7". |

## Left out

- Clipboard writing (`copyToClipboard` and its textarea fallback,
  content.js lines 71-93) is browser I/O. The model records the text handed
  to it as the page's `copied` field. Whether the asynchronous API or the
  fallback succeeds is not modelled.
- The banner's styling, the animation stylesheet and the two timers that
  fade and remove it are not modelled. A banner stays until the next one
  replaces it.
- The `lastRightClickedElement` variable of the content script is read only
  inside the listener that sets it, so keeping it across events has no
  effect. The model passes the element to `Content.Capture` directly.
- Message delivery is not modelled. `sendMessage` appends to an outbox, and
  `EndToEnd` hands a sent message to the content-script model directly.
  Firefox catches and logs a failed send, and Chrome leaves the rejection
  unhandled. Neither changes any state, so both are absent.
- Console logging and the menu's `contexts: ["all"]` are not modelled.
- The Chrome `onInstalled` lifecycle is reduced to its result: the model
  starts from the state after installation (`ChromeBackground.Installed`).
- copy-element-id-extension/content.js (the Firefox build's content script)
  is not part of this model. The end-to-end lemmas pair both background
  builds with the Chrome content script.
- Text.Lower: `toLowerCase` is modelled on the ASCII letters only. Other
  Unicode case mappings, including those that change a string's length, are
  not.
- Content.Capture: for an SVG element, `className` is an object. The model
  represents it as `None`, so the record's `classes` is `None`. The script
  would forward the object itself.
- Dom: a parent's children are given by their count and the element's
  position among them, not as a list. `WellFormed` states that the position
  lies within the count. The `indexOf` result -1 of a detached list cannot
  arise for a real child.
- Strings are sequences of code points, whereas JavaScript strings are UTF-16
  code units. No operation here measures or splits inside a character, so
  this does not affect any result.
