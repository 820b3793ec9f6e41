/** An abstract XML document tree: the part of the `xml.dom.minidom` DOM the core reads
    and builds. Text-level XML (parsing, escaping, pretty printing) is not modelled. */
module Xml {
  import opened Wrappers
  import opened Strings

  /** A DOM node. `Element` carries its attributes by name (minidom keeps them in a
      name-indexed map as well). `CData` and `Instruction` stand for the other node
      kinds a parsed document can hold (CDATA sections, processing instructions). */
  datatype Node =
    | Element(tag: string, attrs: map<string, string>, children: seq<Node>)
    | Text(data: string)
    | Comment(data: string)
    | CData(data: string)
    | Instruction(target: string, data: string)

  /** `element.getAttribute(name)`: the empty string when the attribute is absent. */
  function GetAttribute(n: Node, name: string): string
    requires n.Element?
  {
    if name in n.attrs then n.attrs[name] else ""
  }

  /** A text node whose data `strip()`s to the empty string. */
  predicate IsBlankText(n: Node) {
    n.Text? && IsBlank(n.data)
  }

  /** `n.appendChild(c)` on an element. */
  function AppendChild(n: Node, c: Node): (r: Node)
    requires n.Element?
    ensures r.Element? && r.tag == n.tag && r.attrs == n.attrs
    ensures r.children == n.children + [c]
  {
    n.(children := n.children + [c])
  }

  /** `path` addresses a node of the tree below `n`, one child index per level. */
  predicate ValidPath(n: Node, path: seq<nat>)
    decreases |path|
  {
    path == [] || (n.Element? && path[0] < |n.children| && ValidPath(n.children[path[0]], path[1..]))
  }

  function At(n: Node, path: seq<nat>): Node
    requires ValidPath(n, path)
    decreases |path|
  {
    if path == [] then n else At(n.children[path[0]], path[1..])
  }

  /** `appendChild` on the element that `path` addresses, the rest of the tree unchanged. */
  function AppendAt(n: Node, path: seq<nat>, c: Node): (r: Node)
    requires ValidPath(n, path) && At(n, path).Element?
    ensures r.Element? && r.tag == n.tag && r.attrs == n.attrs
    ensures path != [] ==> |r.children| == |n.children|
    decreases |path|
  {
    if path == [] then AppendChild(n, c)
    else n.(children := n.children[path[0] := AppendAt(n.children[path[0]], path[1..], c)])
  }

  /** The first element named `tag` in document order (pre-order, the node itself
      before its children), as `getElementsByTagName(tag)[0]` finds it. */
  function FindFirst(n: Node, tag: string): (r: Option<seq<nat>>)
    ensures r.Some? ==> ValidPath(n, r.value) && At(n, r.value).Element? && At(n, r.value).tag == tag
    decreases n, 1, 0
  {
    if !n.Element? then None
    else if n.tag == tag then Some([])
    else FindFirstFrom(n, tag, 0)
  }

  function FindFirstFrom(n: Node, tag: string, i: nat): (r: Option<seq<nat>>)
    requires n.Element? && i <= |n.children|
    ensures r.Some? ==> r.value != [] && ValidPath(n, r.value) && At(n, r.value).Element? && At(n, r.value).tag == tag
    decreases n, 0, |n.children| - i
  {
    if i == |n.children| then None
    else match FindFirst(n.children[i], tag)
      case Some(p) => Some([i] + p)
      case None => FindFirstFrom(n, tag, i + 1)
  }

  /** The search from child `k` on depends only on what the search finds in each
      of those children. */
  lemma {:induction false} FindFirstFromAgree(n: Node, m: Node, tag: string, k: nat)
    requires n.Element? && m.Element? && |n.children| == |m.children| && k <= |n.children|
    requires forall j :: k <= j < |n.children| ==> FindFirst(n.children[j], tag) == FindFirst(m.children[j], tag)
    ensures FindFirstFrom(n, tag, k) == FindFirstFrom(m, tag, k)
    decreases |n.children| - k
  {
    if k < |n.children| {
      FindFirstFromAgree(n, m, tag, k + 1);
    }
  }

  /** Appending a child to the first element named `tag` leaves it the first element
      named `tag`: a second `getElementsByTagName(tag)[0]` finds the same element. */
  lemma {:induction false} FindFirstAfterAppend(n: Node, tag: string, c: Node)
    requires FindFirst(n, tag).Some?
    ensures FindFirst(AppendAt(n, FindFirst(n, tag).value, c), tag) == FindFirst(n, tag)
    decreases n
  {
    var p := FindFirst(n, tag).value;
    var m := AppendAt(n, p, c);
    if p != [] {
      var i := p[0];
      FindFirstFromHit(n, tag, 0, p);
      assert m.children[i] == AppendAt(n.children[i], p[1..], c);
      FindFirstAfterAppend(n.children[i], tag, c);
      forall j | 0 <= j < |n.children|
        ensures FindFirst(n.children[j], tag) == FindFirst(m.children[j], tag)
      {
        if j == i {
          assert FindFirst(n.children[i], tag) == Some(p[1..]);
        }
      }
      FindFirstFromAgree(n, m, tag, 0);
    }
  }

  /** A hit of the search from child `k` names a child at or after `k` whose own
      search found the rest of the path. */
  lemma {:induction false} FindFirstFromHit(n: Node, tag: string, k: nat, p: seq<nat>)
    requires n.Element? && k <= |n.children| && FindFirstFrom(n, tag, k) == Some(p)
    ensures p != [] && k <= p[0] < |n.children| && FindFirst(n.children[p[0]], tag) == Some(p[1..])
    decreases |n.children| - k
  {
    match FindFirst(n.children[k], tag)
    case Some(q) =>
      assert p == [k] + q;
    case None =>
      FindFirstFromHit(n, tag, k + 1, p);
  }

  /** After `AppendAt`, the path still addresses an element, now with `c` appended. */
  lemma {:induction false} AtAppendAt(n: Node, path: seq<nat>, c: Node)
    requires ValidPath(n, path) && At(n, path).Element?
    ensures ValidPath(AppendAt(n, path, c), path)
    ensures At(AppendAt(n, path, c), path) == AppendChild(At(n, path), c)
    decreases |path|
  {
    if path != [] {
      AtAppendAt(n.children[path[0]], path[1..], c);
    }
  }

  /** `q` is `p` or one of its ancestors' paths. */
  predicate IsPrefix(q: seq<nat>, p: seq<nat>) {
    |q| <= |p| && q == p[..|q|]
  }

  /** `q` addresses an element named `tag`. */
  predicate TagAt(n: Node, q: seq<nat>, tag: string) {
    ValidPath(n, q) && At(n, q).Element? && At(n, q).tag == tag
  }

  /** `q` comes before `p` in document order: it is an ancestor of `p`, or it lies
      in an earlier sibling subtree. */
  predicate Before(q: seq<nat>, p: seq<nat>)
    decreases |q|
  {
    if q == [] then p != []
    else p != [] && (q[0] < p[0] || (q[0] == p[0] && Before(q[1..], p[1..])))
  }

  /** A search from child `k` that finds nothing found nothing in any child from `k` on. */
  lemma {:induction false} FindFirstFromNone(n: Node, tag: string, k: nat)
    requires n.Element? && k <= |n.children| && FindFirstFrom(n, tag, k).None?
    ensures forall j :: k <= j < |n.children| ==> FindFirst(n.children[j], tag).None?
    decreases |n.children| - k
  {
    if k < |n.children| {
      FindFirstFromNone(n, tag, k + 1);
    }
  }

  /** The search finds nothing exactly when no element of the tree is named `tag`:
      `getElementsByTagName(tag)` is then empty. */
  lemma {:induction false} FindFirstComplete(n: Node, tag: string)
    ensures FindFirst(n, tag).None? <==> forall q :: !TagAt(n, q, tag)
    decreases n
  {
    if FindFirst(n, tag).None? {
      forall q | TagAt(n, q, tag)
        ensures false
      {
        if q != [] {
          FindFirstFromNone(n, tag, 0);
          var i := q[0];
          FindFirstComplete(n.children[i], tag);
          assert TagAt(n.children[i], q[1..], tag);
        }
      }
    } else {
      assert TagAt(n, FindFirst(n, tag).value, tag);
    }
  }

  /** No element named `tag` comes before the one the search finds: it is the first
      element of `getElementsByTagName(tag)`. */
  lemma {:induction false} FindFirstIsFirst(n: Node, tag: string, q: seq<nat>)
    requires FindFirst(n, tag).Some? && Before(q, FindFirst(n, tag).value)
    ensures !TagAt(n, q, tag)
    decreases n
  {
    var p := FindFirst(n, tag).value;
    if q != [] && ValidPath(n, q) {
      FindFirstFromHit(n, tag, 0, p);
      var i := q[0];
      if i < p[0] {
        FindFirstFromMiss(n, tag, 0, p);
        FindFirstComplete(n.children[i], tag);
        assert !TagAt(n.children[i], q[1..], tag);
      } else {
        FindFirstIsFirst(n.children[i], tag, q[1..]);
      }
    }
  }

  /** The children the search from `k` passes over before its hit hold no match. */
  lemma {:induction false} FindFirstFromMiss(n: Node, tag: string, k: nat, p: seq<nat>)
    requires n.Element? && k <= |n.children| && FindFirstFrom(n, tag, k) == Some(p)
    ensures p != [] && forall j :: k <= j < p[0] && j < |n.children| ==> FindFirst(n.children[j], tag).None?
    decreases |n.children| - k
  {
    if FindFirst(n.children[k], tag).None? {
      FindFirstFromMiss(n, tag, k + 1, p);
    }
  }

  /** `AppendAt` changes no node off the path to the element it appends to: every
      other path addresses the same node as before. */
  lemma {:induction false} AppendAtFrame(n: Node, path: seq<nat>, c: Node, q: seq<nat>)
    requires ValidPath(n, path) && At(n, path).Element?
    requires ValidPath(n, q) && !IsPrefix(q, path)
    ensures ValidPath(AppendAt(n, path, c), q) && At(AppendAt(n, path, c), q) == At(n, q)
    decreases |path|
  {
    var r := AppendAt(n, path, c);
    if path != [] && q[0] == path[0] {
      AppendAtFrame(n.children[path[0]], path[1..], c, q[1..]);
    }
  }

  /** The elements on the way to the one `AppendAt` appends to keep their tag,
      attributes and number of children. */
  lemma {:induction false} AppendAtAncestors(n: Node, path: seq<nat>, c: Node, q: seq<nat>)
    requires ValidPath(n, path) && At(n, path).Element?
    requires IsPrefix(q, path) && |q| < |path|
    ensures ValidPath(n, q) && ValidPath(AppendAt(n, path, c), q)
    ensures At(AppendAt(n, path, c), q).Element? && At(n, q).Element?
    ensures At(AppendAt(n, path, c), q).tag == At(n, q).tag
    ensures At(AppendAt(n, path, c), q).attrs == At(n, q).attrs
    ensures |At(AppendAt(n, path, c), q).children| == |At(n, q).children|
    decreases |path|
  {
    if q != [] {
      assert q[1..] == path[1..][..|q| - 1];
      AppendAtAncestors(n.children[path[0]], path[1..], c, q[1..]);
    }
  }

  /** Two appends to the same element: it gains both nodes, its ancestors keep their
      tag, attributes and number of children, and every node off the path to it is
      unchanged. */
  lemma AppendTwiceAt(n: Node, path: seq<nat>, a: Node, b: Node)
    requires ValidPath(n, path) && At(n, path).Element?
    ensures ValidPath(AppendAt(n, path, a), path) && At(AppendAt(n, path, a), path).Element?
    ensures var r := AppendAt(AppendAt(n, path, a), path, b);
      && ValidPath(r, path) && At(r, path).Element?
      && At(r, path).tag == At(n, path).tag && At(r, path).attrs == At(n, path).attrs
      && At(r, path).children == At(n, path).children + [a, b]
    ensures var r := AppendAt(AppendAt(n, path, a), path, b);
      forall q :: IsPrefix(q, path) && |q| < |path| ==>
        && ValidPath(r, q) && ValidPath(n, q) && At(r, q).Element? && At(n, q).Element?
        && At(r, q).tag == At(n, q).tag && At(r, q).attrs == At(n, q).attrs
        && |At(r, q).children| == |At(n, q).children|
    ensures var r := AppendAt(AppendAt(n, path, a), path, b);
      forall q :: ValidPath(n, q) && !IsPrefix(q, path) ==> ValidPath(r, q) && At(r, q) == At(n, q)
  {
    var once := AppendAt(n, path, a);
    AtAppendAt(n, path, a);
    AtAppendAt(once, path, b);
    var r := AppendAt(once, path, b);
    forall q | IsPrefix(q, path) && |q| < |path|
      ensures && ValidPath(r, q) && ValidPath(n, q) && At(r, q).Element? && At(n, q).Element?
              && At(r, q).tag == At(n, q).tag && At(r, q).attrs == At(n, q).attrs
              && |At(r, q).children| == |At(n, q).children|
    {
      AppendAtAncestors(n, path, a, q);
      AppendAtAncestors(once, path, b, q);
    }
    forall q | ValidPath(n, q) && !IsPrefix(q, path)
      ensures ValidPath(r, q) && At(r, q) == At(n, q)
    {
      AppendAtFrame(n, path, a, q);
      AppendAtFrame(once, path, b, q);
    }
  }
}
