/**
 * A finite snapshot of the page: every element in document order, each with
 * its tag, its attributes and its text content, plus the two attribute
 * selectors the extension queries with and the events a page trace is made of.
 */
module Dom {
  import opened Wrappers

  type NodeId = nat

  /** One element: `text` is its `textContent`, already gathered from its subtree. */
  datatype Node = Node(id: NodeId, tag: string, attributes: map<string, string>, text: string)

  /** All elements of the page, in document order. */
  datatype Document = Document(nodes: seq<Node>)

  /** `element.getAttribute(name)`, with `null` as `None`. */
  function GetAttribute(n: Node, name: string): Option<string>
  {
    if name in n.attributes then Some(n.attributes[name]) else None
  }

  /** The selector shapes the extension uses: a tag name, or `[name="value"]`. */
  datatype Selector = TagIs(tag: string) | AttributeEquals(name: string, value: string)

  predicate Matches(n: Node, sel: Selector)
  {
    match sel
    case TagIs(t) => n.tag == t
    case AttributeEquals(a, v) => GetAttribute(n, a) == Some(v)
  }

  /** Position of the first element of `xs` that satisfies `p`, if any. */
  function FirstIndex(xs: seq<Node>, p: Node -> bool): (r: Option<nat>)
    ensures r.Some? ==> r.value < |xs| && p(xs[r.value])
    ensures r.Some? ==> forall j :: 0 <= j < r.value ==> !p(xs[j])
    ensures r.None? ==> forall j :: 0 <= j < |xs| ==> !p(xs[j])
    decreases |xs|
  {
    if |xs| == 0 then None
    else if p(xs[0]) then Some(0)
    else
      match FirstIndex(xs[1..], p)
      case Some(k) => Some(k + 1)
      case None => None
  }

  /** The first element of `xs` that satisfies `p`, if any. */
  function First(xs: seq<Node>, p: Node -> bool): Option<Node>
  {
    match FirstIndex(xs, p)
    case Some(k) => Some(xs[k])
    case None => None
  }

  /** `document.querySelector(sel)`: the first matching element in document order, or `null`. */
  function QuerySelector(doc: Document, sel: Selector): Option<Node>
  {
    First(doc.nodes, n => Matches(n, sel))
  }

  /**
   * `querySelector` returns `null` exactly when nothing matches, and otherwise
   * an element of the page that matches and that no earlier element matches.
   */
  lemma {:induction false} QuerySelectorFindsFirst(doc: Document, sel: Selector)
    ensures QuerySelector(doc, sel).None? <==> forall j :: 0 <= j < |doc.nodes| ==> !Matches(doc.nodes[j], sel)
    ensures QuerySelector(doc, sel).Some? ==>
              exists k :: 0 <= k < |doc.nodes| && doc.nodes[k] == QuerySelector(doc, sel).value
                          && Matches(doc.nodes[k], sel)
                          && forall j :: 0 <= j < k ==> !Matches(doc.nodes[j], sel)
  {
    var r := FirstIndex(doc.nodes, n => Matches(n, sel));
    if r.Some? {
      assert doc.nodes[r.value] == QuerySelector(doc, sel).value;
    }
  }

  /** The elements of `xs` that match `sel`, in their original order. */
  function Filter(xs: seq<Node>, sel: Selector): (r: seq<Node>)
    ensures forall n :: n in r <==> n in xs && Matches(n, sel)
    decreases |xs|
  {
    if |xs| == 0 then []
    else (if Matches(xs[0], sel) then [xs[0]] else []) + Filter(xs[1..], sel)
  }

  /** `document.querySelectorAll(sel)`, as a sequence in document order. */
  function QuerySelectorAll(doc: Document, sel: Selector): seq<Node>
  {
    Filter(doc.nodes, sel)
  }

  /**
   * Searching the matches of `sel` for the first element satisfying `p` finds
   * the first element of the whole list that both matches `sel` and satisfies
   * `p`: filtering keeps document order.
   */
  lemma {:induction false} FirstOfFilter(xs: seq<Node>, sel: Selector, p: Node -> bool, q: Node -> bool)
    requires forall n :: q(n) == (Matches(n, sel) && p(n))
    ensures First(Filter(xs, sel), p) == First(xs, q)
    decreases |xs|
  {
    if |xs| > 0 {
      FirstOfFilter(xs[1..], sel, p, q);
      FirstStep(xs, q);
      var rest := Filter(xs[1..], sel);
      if Matches(xs[0], sel) {
        var kept := [xs[0]] + rest;
        assert Filter(xs, sel) == kept;
        assert kept[1..] == rest;
        FirstStep(kept, p);
      } else {
        assert Filter(xs, sel) == rest;
      }
    }
  }

  /** `First` looks at the head, then at the rest. */
  lemma {:induction false} FirstStep(xs: seq<Node>, p: Node -> bool)
    requires |xs| > 0
    ensures First(xs, p) == if p(xs[0]) then Some(xs[0]) else First(xs[1..], p)
  {
    if !p(xs[0]) {
      match FirstIndex(xs[1..], p)
      case Some(k) => assert xs[k + 1] == xs[1..][k];
      case None =>
    }
  }

  /** What a page trace is made of: a mutation batch leaving the page as `doc`, or the clock moving on. */
  datatype PageEvent = MutationBatch(doc: Document) | Advance(ms: nat)

  /** Total time that passes during `es`. */
  function ElapsedIn(es: seq<PageEvent>): nat
  {
    if es == [] then 0
    else (match es[0] case Advance(ms) => ms case MutationBatch(_) => 0) + ElapsedIn(es[1..])
  }
}
