/** The slice of the DOM the content script reads: an element, its
    attributes, and the chain of nodes above it. */
module Dom {
  import opened Wrappers

  /** An element as the selector walk sees it. `tagName` is the node name as
      the DOM reports it (upper case for HTML elements), `id` is the `id`
      property ("" when the attribute is absent), and `className` is the
      `className` property when it is a string (None stands for the
      non-string `className` of SVG elements). */
  datatype Element = Element(tagName: string, id: string, className: Option<string>, up: Link)

  /** Where an element hangs. A `Child` link records the parent node, the
      number of element children the parent has (`parent.children.length`)
      and the element's 1-based position among them (`indexOf + 1`). */
  datatype Link =
    | Detached
    | Child(parent: Container, siblings: nat, position: nat)

  /** A parent node: another element, or a node that is not an element but
      still has element children (the document, a document fragment, a
      shadow root). */
  datatype Container =
    | DocumentNode
    | ElementNode(element: Element)

  /** The `id` property is truthy: JavaScript treats only the empty string
      as false */
  predicate HasId(e: Element) {
    |e.id| > 0
  }

  /** The element's parent is itself an element */
  predicate HasParentElement(e: Element) {
    e.up.Child? && e.up.parent.ElementNode?
  }

  function ParentElement(e: Element): (p: Element)
    requires HasParentElement(e)
    ensures p < e
  {
    e.up.parent.element
  }

  /** Number of element ancestors of `e` */
  function Depth(e: Element): nat
  {
    if HasParentElement(e) then 1 + Depth(ParentElement(e)) else 0
  }

  /** The k-th element on the ancestor chain: 0 is `e` itself, 1 its parent */
  function Ancestor(e: Element, k: nat): (a: Element)
    requires k <= Depth(e)
    ensures k == 0 ==> a == e
  {
    if k == 0 then e else Ancestor(ParentElement(e), k - 1)
  }

  /** Every parent link is consistent: an element is one of its parent's
      element children, so its position lies between 1 and the child count. */
  predicate WellFormed(e: Element) {
    match e.up
    case Detached => true
    case Child(p, n, k) =>
      && 1 <= k <= n
      && (p.ElementNode? ==> WellFormed(p.element))
  }
}
