/** CSS selector derivation (`getCSSSelector` in the Chrome content script).

    The selector of an element with an id is `#id`. Otherwise the walk climbs
    the element chain; every element becomes a segment (lower-cased tag, the
    class tokens joined by dots, and `:nth-child(k)` when its parent has more
    than one element child) until an ancestor with an id is met, which
    contributes `#id` and ends the walk. Segments run from the top down and
    are joined by " > ". */
module Selectors {
  import opened Wrappers
  import opened Text
  import opened ClassList
  import opened Dom

  const Combinator: string := " > "
  const NthChildOpen: string := ":nth-child("

  /** The class part of a segment (the class branch of the walk) */
  function ClassSuffix(className: Option<string>): string
  {
    match className
    case None => ""
    case Some(s) =>
      if s == "" then ""
      else
        var classes := ClassTokens(s);
        if |classes| > 0 then "." + Join(classes, ".") else ""
  }

  /** The class part is empty exactly when `className` is not a string or
      holds nothing but white space; otherwise it starts with a dot. */
  lemma ClassSuffixEmptyIff(className: Option<string>)
    ensures ClassSuffix(className) == [] <==> className.None? || Squeeze(className.value) == []
    ensures ClassSuffix(className) != [] ==> ClassSuffix(className)[0] == '.'
  {
    if className.Some? && className.value != "" {
      var tokens := ClassTokens(className.value);
    }
  }

  /** The class part lists the element's class names: a dot, then the
      whitespace-separated tokens of `className` joined by dots, whatever
      the tokens contain. When no class name itself contains a dot,
      splitting after the leading dot gives the tokens back. */
  lemma ClassSuffixListsClasses(className: string)
    requires Squeeze(className) != []
    ensures ClassSuffix(Some(className)) == "." + Join(Words(className), ".")
    ensures (forall k :: 0 <= k < |Words(className)| ==> '.' !in Words(className)[k]) ==>
              SplitOn(ClassSuffix(Some(className))[1..], '.') == Words(className)
  {
    var tokens := ClassTokens(className);
    var r := ClassSuffix(Some(className));
    assert r[1..] == Join(Words(className), ".");
    if forall k :: 0 <= k < |Words(className)| ==> '.' !in Words(className)[k] {
      SplitJoinRoundTrip(Words(className), '.');
    }
  }

  /** The positional part of a segment */
  function NthChildSuffix(e: Element): string
  {
    match e.up
    case Detached => ""
    case Child(_, siblings, position) =>
      if siblings > 1 then NthChildOpen + Decimal(position) + ")" else ""
  }

  /** The positional part is present exactly when the element has a parent
      node with more than one element child; it then has the form
      `:nth-child(...)`. */
  lemma NthChildPresentIff(e: Element)
    ensures NthChildSuffix(e) != [] <==> e.up.Child? && e.up.siblings > 1
    ensures var r := NthChildSuffix(e);
            r != [] ==> |r| > |NthChildOpen| + 1 && r[..|NthChildOpen|] == NthChildOpen && r[|r| - 1] == ')'
  {
    if e.up.Child? && e.up.siblings > 1 {
      var r := NthChildSuffix(e);
      assert r == NthChildOpen + Decimal(e.up.position) + ")";
    }
  }

  /** In a well-formed tree the number written inside `:nth-child(...)` reads
      back as the element's 1-based position, which lies between 1 and the
      parent's element-child count. */
  lemma NthChildIndexInRange(e: Element)
    requires WellFormed(e)
    requires e.up.Child? && e.up.siblings > 1
    ensures var r := NthChildSuffix(e);
            && |r| > |NthChildOpen| + 1
            && var k := DigitsValue(r[|NthChildOpen|..|r| - 1]);
               k == e.up.position && 1 <= k <= e.up.siblings
  {
    var r := NthChildSuffix(e);
    assert r == NthChildOpen + Decimal(e.up.position) + ")";
    assert r[|NthChildOpen|..|r| - 1] == Decimal(e.up.position);
    DecimalRoundTrip(e.up.position);
  }

  /** The segment of an element without an id */
  function PlainSegment(e: Element): string
  {
    Lower(e.tagName) + ClassSuffix(e.className) + NthChildSuffix(e)
  }

  /** A segment starts with the lower-cased tag name, which holds no
      upper-case ASCII letter; the class part and the positional part
      follow it. */
  lemma PlainSegmentStartsWithTag(e: Element)
    ensures var r := PlainSegment(e);
            && |r| >= |e.tagName|
            && r[..|e.tagName|] == Lower(e.tagName)
            && (forall i :: 0 <= i < |e.tagName| ==> !IsUpperAscii(r[i]))
            && r[|e.tagName|..] == ClassSuffix(e.className) + NthChildSuffix(e)
  {
    var r := PlainSegment(e);
    assert r == Lower(e.tagName) + (ClassSuffix(e.className) + NthChildSuffix(e));
  }

  /** What the walk records for one element on the chain: the id of the
      element that ends the walk, or an element described by its tag, class
      list and position. */
  datatype Step = IdStep(id: string) | TagStep(node: Element)

  /** The step an element contributes when the walk reaches it */
  function StepOf(e: Element): Step {
    if HasId(e) then IdStep(e.id) else TagStep(e)
  }

  /** The text of one segment of the selector */
  function Render(step: Step): string {
    match step
    case IdStep(id) => "#" + id
    case TagStep(node) => PlainSegment(node)
  }

  /** The segments of a path, one per step */
  function RenderAll(path: seq<Step>): (segments: seq<string>)
    ensures |segments| == |path|
    ensures forall i :: 0 <= i < |path| ==> segments[i] == Render(path[i])
  {
    if path == [] then [] else [Render(path[0])] + RenderAll(path[1..])
  }

  /** Rendering a path with one more step in front puts that step's
      segment in front */
  lemma RenderAllCons(step: Step, steps: seq<Step>)
    ensures RenderAll([step] + steps) == [Render(step)] + RenderAll(steps)
  {
    assert ([step] + steps)[1..] == steps;
  }

  /** Rendering a path with one more step at the end appends that step's
      segment */
  lemma RenderAllSnoc(steps: seq<Step>, step: Step)
    ensures RenderAll(steps + [step]) == RenderAll(steps) + [Render(step)]
  {
    var r := RenderAll(steps + [step]);
    forall i | 0 <= i < |r|
      ensures r[i] == (RenderAll(steps) + [Render(step)])[i]
    {
      if i < |steps| {
        assert (steps + [step])[i] == steps[i];
      }
    }
  }

  /** The steps of the walk, top first (`path.unshift` at each level). There
      is at least one and at most one per element on the chain, and the last
      describes `e` itself. */
  function Walk(e: Element): (path: seq<Step>)
    ensures 1 <= |path| <= Depth(e) + 1
    ensures path[|path| - 1] == StepOf(e)
  {
    if HasId(e) then [IdStep(e.id)]
    else if HasParentElement(e) then Walk(ParentElement(e)) + [TagStep(e)]
    else [TagStep(e)]
  }

  /** `getCSSSelector(element)`: an element with an id is `#id` whatever its
      ancestry; one without an id extends its parent's selector by " > " and
      its own segment, or is that segment alone when its parent is not an
      element. */
  function CssSelector(e: Element): (s: string)
    ensures HasId(e) ==> s == "#" + e.id
    ensures !HasId(e) && !HasParentElement(e) ==> s == PlainSegment(e)
    ensures !HasId(e) && HasParentElement(e) ==>
              s == CssSelector(ParentElement(e)) + Combinator + PlainSegment(e)
  {
    if !HasId(e) && HasParentElement(e) then
      var above := RenderAll(Walk(ParentElement(e)));
      RenderAllSnoc(Walk(ParentElement(e)), TagStep(e));
      JoinSnoc(above, PlainSegment(e), Combinator);
      Join(RenderAll(Walk(e)), Combinator)
    else
      Join(RenderAll(Walk(e)), Combinator)
  }

  /** One level of the walk for an element without an id: the lower-cased
      node name, then a dot before each whitespace-separated class name
      (nothing when `className` is not a string or only white space), then
      the 1-based position when the parent has several element children. */
  method BuildSegment(node: Element) returns (segment: string)
    requires !HasId(node)
    ensures segment == PlainSegment(node)
    ensures var classPart :=
              if node.className.None? || Squeeze(node.className.value) == [] then ""
              else "." + Join(Words(node.className.value), ".");
            var positionPart :=
              if node.up.Child? && node.up.siblings > 1 then ":nth-child(" + Decimal(node.up.position) + ")"
              else "";
            segment == Lower(node.tagName) + classPart + positionPart
  {
    var tag := Lower(node.tagName);
    var classPart := "";
    if node.className.Some? && node.className.value != "" {
      var classes := ClassTokens(node.className.value);
      if |classes| > 0 {
        classPart := "." + Join(classes, ".");
      }
    }
    assert classPart == ClassSuffix(node.className);
    var positionPart := "";
    match node.up {
      case Detached =>
      case Child(_, siblings, position) =>
        if siblings > 1 {
          positionPart := NthChildOpen + Decimal(position) + ")";
        }
    }
    segment := tag + classPart + positionPart;
  }

  /** The steps the walk has yet to take from the current node */
  function Pending(current: Option<Element>): seq<Step> {
    if current.Some? then Walk(current.value) else []
  }

  lemma AppendAssoc<T>(a: seq<T>, b: seq<T>, c: seq<T>)
    ensures (a + b) + c == a + (b + c)
  {
  }

  /** The walk as the content script runs it: an early return for an
      element with an id, then a loop that prepends one segment per element
      and stops at the first id or at a parent that is not an element. */
  method GetCssSelector(element: Element) returns (selector: string)
    ensures selector == CssSelector(element)
  {
    if HasId(element) {
      return "#" + element.id;
    }
    var path: seq<string> := [];
    ghost var steps: seq<Step> := [];
    var current: Option<Element> := Some(element);
    while current.Some?
      invariant Walk(element) == Pending(current) + steps
      invariant path == RenderAll(steps)
      decreases if current.Some? then Depth(current.value) + 1 else 0
    {
      var node := current.value;
      if HasId(node) {
        RenderAllCons(IdStep(node.id), steps);
        path := ["#" + node.id] + path;
        steps := [IdStep(node.id)] + steps;
        break;
      }
      var segment := BuildSegment(node);
      var next: Option<Element> := if HasParentElement(node) then Some(ParentElement(node)) else None;
      assert Walk(node) == Pending(next) + [TagStep(node)];
      AppendAssoc(Pending(next), [TagStep(node)], steps);
      RenderAllCons(TagStep(node), steps);
      path := [segment] + path;
      steps := [TagStep(node)] + steps;
      current := next;
    }
    assert Walk(element) == steps;
    selector := Join(path, Combinator);
  }

  /** Index-based description of the walk: the steps describe the chain from
      ancestor n-1 down to `e` itself, where n-1 is the first ancestor with
      an id or, when there is none, the topmost element. Only that first
      step may be an id step. */
  lemma {:induction false} WalkDescribesAncestors(e: Element)
    ensures |Walk(e)| - 1 <= Depth(e)
    ensures forall k :: 0 <= k < |Walk(e)| - 1 ==> !HasId(Ancestor(e, k))
    ensures HasId(Ancestor(e, |Walk(e)| - 1)) || |Walk(e)| - 1 == Depth(e)
    ensures forall i :: 0 <= i < |Walk(e)| ==> Walk(e)[i] == StepOf(Ancestor(e, |Walk(e)| - 1 - i))
  {
    var r := Walk(e);
    if !HasId(e) && HasParentElement(e) {
      var p := ParentElement(e);
      WalkDescribesAncestors(p);
      var rp := Walk(p);
      var m := |rp|;
      assert r == rp + [TagStep(e)];
      forall k | 1 <= k <= m
        ensures Ancestor(e, k) == Ancestor(p, k - 1)
      {
      }
      forall i | 0 <= i < m + 1
        ensures r[i] == StepOf(Ancestor(e, m - i))
      {
        if i < m {
          assert r[i] == rp[i];
        }
      }
    } else {
      assert Ancestor(e, 0) == e;
    }
  }

  /** The selector ends with the segment of the starting element */
  lemma SelectorEndsWithOwnSegment(e: Element)
    ensures var s := CssSelector(e);
            var own := Render(StepOf(e));
            |own| <= |s| && s[|s| - |own|..] == own
  {
  }

  /** The walk stops at the nearest ancestor with an id: when ancestor k is
      the first element on the chain with an id, the path has k + 1
      segments and begins with that ancestor's `#id`. */
  lemma FirstIdAncestorHeadsPath(e: Element, k: nat)
    requires k <= Depth(e)
    requires HasId(Ancestor(e, k))
    requires forall j :: 0 <= j < k ==> !HasId(Ancestor(e, j))
    ensures |Walk(e)| == k + 1
    ensures Walk(e)[0] == IdStep(Ancestor(e, k).id)
  {
    WalkStopsAt(e, k);
    WalkHead(e);
    var a := Ancestor(e, k);
    assert Walk(e)[0] == StepOf(a);
  }

  lemma WalkStopsAt(e: Element, k: nat)
    requires k <= Depth(e)
    requires HasId(Ancestor(e, k))
    requires forall j :: 0 <= j < k ==> !HasId(Ancestor(e, j))
    ensures |Walk(e)| == k + 1
  {
    WalkDescribesAncestors(e);
  }

  /** The first step describes the ancestor where the walk stopped */
  lemma WalkHead(e: Element)
    ensures Walk(e)[0] == StepOf(Ancestor(e, |Walk(e)| - 1))
  {
    WalkDescribesAncestors(e);
    assert Walk(e)[0] == StepOf(Ancestor(e, |Walk(e)| - 1 - 0));
  }

  /** Without an id anywhere on the chain, the path has one segment per
      element on the chain, the first describing the topmost element. */
  lemma NoIdPathSpansChain(e: Element)
    requires forall j :: 0 <= j <= Depth(e) ==> !HasId(Ancestor(e, j))
    ensures |Walk(e)| == Depth(e) + 1
    ensures Walk(e)[0] == TagStep(Ancestor(e, Depth(e)))
  {
    WalkDescribesAncestors(e);
    assert !HasId(Ancestor(e, |Walk(e)| - 1));
    WalkHead(e);
  }
}
