/**
  `disableMarkdownLinks` (src/Element/Text.tsx:156-176): before rendering, every
  link-like mdast node below the root that the traversal reaches (one not
  inside an already demoted node) turns back into the literal source text it
  was parsed from, and its subtree is skipped.

  The callback mutates the node `visit` hands it; here that is the method
  `MdastNode.Visit`, proved against the function `Intercept`.  The traversal of
  `unist-util-visit` (preorder, `SKIP` stops the descent into a node's
  children) is the recursive rewrite `Demote` over node values.
*/
module Markdown {
  import opened Wrappers
  import opened Strings

  /** `node.position`: the start and end offsets of the node in the source. */
  datatype Position = Position(start: nat, end: nat)

  /** The fields of a node the visitor reads or writes (`type`, `value`, `position`). */
  datatype Attrs = Attrs(kind: string, value: string, position: Option<Position>)

  /** An mdast node with its children. */
  datatype MdNode = MdNode(attrs: Attrs, children: seq<MdNode>)

  /** What the visitor returns to `visit`: carry on into the children, or `SKIP` them. */
  datatype Action = Continue | Skip

  /** The five node types whose native rendering is disabled. */
  predicate LinkLike(kind: string) {
    || kind == "link" || kind == "linkReference" || kind == "image"
    || kind == "imageReference" || kind == "definition"
  }

  predicate EndsWithParen(s: string) {
    0 < |s| && s[|s| - 1] == ')'
  }

  /** `.replace(/\)$/, " )")`: one space goes in before a final `)`, nothing else changes. */
  function SpaceTrailingParen(s: string): (r: string)
    ensures EndsWithParen(s) ==> |r| == |s| + 1 && r[|s| - 1] == ' ' && r[..|s| - 1] + r[|s|..] == s
    ensures !EndsWithParen(s) ==> r == s
  {
    if EndsWithParen(s) then s[..|s| - 1] + " )" else s
  }

  /** The text a demoted node gets: its source slice, with the parenthesis fix-up. */
  function DemotedValue(content: string, p: Position): string {
    SpaceTrailingParen(Slice(content, p.start, p.end))
  }

  /**
    The visitor on a node's fields: a node with a parent and a numeric index
    whose type is link-like becomes `text` holding its source slice and its
    children are skipped; every other node is left as it is.
  */
  function Intercept(a: Attrs, hasParent: bool, index: Option<nat>, content: string): (r: (Attrs, Action))
    requires hasParent && index.Some? && LinkLike(a.kind) ==> a.position.Some?
    ensures r.1 == Skip <==> hasParent && index.Some? && LinkLike(a.kind)
    ensures r.1 == Continue ==> r.0 == a
    ensures r.1 == Skip ==> r.0.kind == "text" && r.0.value == DemotedValue(content, a.position.value)
    ensures r.0.position == a.position
  {
    if hasParent && index.Some? && LinkLike(a.kind) then
      (Attrs("text", DemotedValue(content, a.position.value), a.position), Skip)
    else
      (a, Continue)
  }

  /** A mutable mdast node, as `visit` passes it to the callback. */
  class MdastNode {
    var kind: string
    var value: string
    var position: Option<Position>

    constructor (a: Attrs)
      ensures Snapshot() == a
    {
      kind, value, position := a.kind, a.value, a.position;
    }

    function Snapshot(): Attrs
      reads this
    {
      Attrs(kind, value, position)
    }

    /**
      The callback of `disableMarkdownLinks`: it rewrites the node in place and
      returns `SKIP` exactly when `Intercept` demotes it.  `unwrap` of a missing
      position is the caller's violation, hence the precondition.
    */
    method Visit(index: Option<nat>, hasParent: bool, content: string) returns (action: Action)
      requires hasParent && index.Some? && LinkLike(kind) ==> position.Some?
      modifies this
      ensures (Snapshot(), action) == Intercept(old(Snapshot()), hasParent, index, content)
    {
      if hasParent && index.Some? && LinkLike(kind) {
        kind := "text";
        var p := position.value;
        value := DemotedValue(content, p);
        return Skip;
      }
      return Continue;
    }
  }

  /** Every node the traversal demotes has a position (`unwrap` succeeds). */
  ghost predicate Visitable(n: MdNode, isChild: bool)
    decreases n
  {
    if isChild && LinkLike(n.attrs.kind) then n.attrs.position.Some?
    else forall i :: 0 <= i < |n.children| ==> Visitable(n.children[i], true)
  }

  /** `visit` from node `n`: call the visitor, then visit the children unless it skipped them. */
  function Demote(content: string, n: MdNode, index: Option<nat>): MdNode
    requires Visitable(n, index.Some?)
    decreases n
  {
    var (a, action) := Intercept(n.attrs, index.Some?, index, content);
    if action == Skip then MdNode(a, n.children)
    else MdNode(a, seq(|n.children|, i requires 0 <= i < |n.children| => Demote(content, n.children[i], Some(i))))
  }

  /** `visit(tree, visitor)`: the root has neither parent nor index. */
  function DemoteTree(content: string, tree: MdNode): MdNode
    requires Visitable(tree, false)
  {
    Demote(content, tree, None)
  }

  /** The node at a path of child indices. */
  function Get(t: MdNode, p: seq<nat>): Option<MdNode>
    decreases |p|
  {
    if p == [] then Some(t)
    else if p[0] < |t.children| then Get(t.children[p[0]], p[1..])
    else None
  }

  /** The traversal reaches the node at `p`: no node strictly above it was skipped. */
  ghost predicate Reached(t: MdNode, p: seq<nat>, isChild: bool)
    decreases |p|
  {
    p == [] || (!(isChild && LinkLike(t.attrs.kind)) && p[0] < |t.children| && Reached(t.children[p[0]], p[1..], true))
  }

  lemma {:induction false} DemoteAt(content: string, n: MdNode, index: Option<nat>, p: seq<nat>)
    requires Visitable(n, index.Some?) && Reached(n, p, index.Some?)
    ensures Get(n, p).Some? && Get(Demote(content, n, index), p).Some?
    ensures var o := Get(n, p).value;
            (p != [] || index.Some?) && LinkLike(o.attrs.kind) ==> o.attrs.position.Some?
    ensures var o := Get(n, p).value;
            var m := Get(Demote(content, n, index), p).value;
            if (p != [] || index.Some?) && LinkLike(o.attrs.kind)
            then m == MdNode(Attrs("text", DemotedValue(content, o.attrs.position.value), o.attrs.position), o.children)
            else m.attrs == o.attrs && |m.children| == |o.children|
    decreases |p|
  {
    if p != [] {
      var i := p[0];
      assert Demote(content, n, index).children[i] == Demote(content, n.children[i], Some(i));
      DemoteAt(content, n.children[i], Some(i), p[1..]);
    }
  }

  /**
    Exactly the reached nodes that have a parent and a link-like type are
    rewritten: each becomes `text` holding its source slice, with the trailing
    parenthesis fix-up, and keeps its children untouched; every other reached
    node keeps its type, value and position.
  */
  lemma DemoteTreeRewritesExactly(content: string, t: MdNode, p: seq<nat>)
    requires Visitable(t, false) && Reached(t, p, false)
    ensures Get(t, p).Some? && Get(DemoteTree(content, t), p).Some?
    ensures var o := Get(t, p).value;
            p != [] && LinkLike(o.attrs.kind) ==> o.attrs.position.Some?
    ensures var o := Get(t, p).value;
            var m := Get(DemoteTree(content, t), p).value;
            if p != [] && LinkLike(o.attrs.kind)
            then m == MdNode(Attrs("text", DemotedValue(content, o.attrs.position.value), o.attrs.position), o.children)
            else m.attrs == o.attrs && |m.children| == |o.children|
  {
    DemoteAt(content, t, None, p);
  }

  /** What the renderer shows: a `text` node renders only its value, never its children. */
  function Rendered(n: MdNode): MdNode
    decreases n
  {
    if n.attrs.kind == "text" then MdNode(n.attrs, [])
    else MdNode(n.attrs, seq(|n.children|, i requires 0 <= i < |n.children| => Rendered(n.children[i])))
  }

  /** No node below `n` is link-like. */
  ghost predicate NoLinkBelow(n: MdNode)
    decreases n
  {
    forall i :: 0 <= i < |n.children| ==> !LinkLike(n.children[i].attrs.kind) && NoLinkBelow(n.children[i])
  }

  lemma {:induction false} DemoteLeavesNoLink(content: string, n: MdNode, index: Option<nat>)
    requires Visitable(n, index.Some?)
    ensures index.Some? ==> !LinkLike(Demote(content, n, index).attrs.kind)
    ensures NoLinkBelow(Rendered(Demote(content, n, index)))
    decreases n
  {
    var d := Demote(content, n, index);
    if !(index.Some? && LinkLike(n.attrs.kind)) && d.attrs.kind != "text" {
      forall i | 0 <= i < |n.children|
        ensures !LinkLike(Rendered(d).children[i].attrs.kind) && NoLinkBelow(Rendered(d).children[i])
      {
        assert d.children[i] == Demote(content, n.children[i], Some(i));
        DemoteLeavesNoLink(content, n.children[i], Some(i));
      }
    }
  }

  /** After the rewrite, nothing the renderer shows below the root is a link, image or definition. */
  lemma DemoteTreeRendersNoLink(content: string, t: MdNode)
    requires Visitable(t, false)
    ensures NoLinkBelow(Rendered(DemoteTree(content, t)))
  {
    DemoteLeavesNoLink(content, t, None);
  }

  lemma {:induction false} DemoteTwiceAt(content: string, n: MdNode, index: Option<nat>)
    requires Visitable(n, index.Some?)
    requires Visitable(Demote(content, n, index), index.Some?)
    ensures Rendered(Demote(content, Demote(content, n, index), index)) == Rendered(Demote(content, n, index))
    decreases n
  {
    var d := Demote(content, n, index);
    var dd := Demote(content, d, index);
    if !(index.Some? && LinkLike(n.attrs.kind)) && n.attrs.kind != "text" {
      assert |dd.children| == |d.children| == |n.children|;
      forall i | 0 <= i < |n.children|
        ensures Rendered(dd).children[i] == Rendered(d).children[i]
      {
        assert d.children[i] == Demote(content, n.children[i], Some(i));
        assert dd.children[i] == Demote(content, d.children[i], Some(i));
        DemoteTwiceAt(content, n.children[i], Some(i));
      }
    }
  }

  /**
    A second run shows nothing new: every demoted node is now plain text and
    renders the same.  (Below a demoted node the tree itself can still change;
    see `SecondRunReachesRetainedChildren`.)
  */
  lemma DemoteTreeTwiceRendersSame(content: string, t: MdNode)
    requires Visitable(t, false) && Visitable(DemoteTree(content, t), false)
    ensures Rendered(DemoteTree(content, DemoteTree(content, t))) == Rendered(DemoteTree(content, t))
  {
    DemoteTwiceAt(content, t, None);
  }

  /**
    The rewrite is not idempotent on the tree: a demoted node keeps its children
    array, and `visit` descends into the children of a `text` node, so an image
    inside a link is demoted by the second run.
  */
  lemma SecondRunReachesRetainedChildren()
    ensures var content := "[![a](i.png)](h)";
            var image := MdNode(Attrs("image", "", Some(Position(1, 12))), []);
            var tree := MdNode(Attrs("root", "", None), [MdNode(Attrs("link", "", Some(Position(0, 16))), [image])]);
            && Visitable(tree, false) && Visitable(DemoteTree(content, tree), false)
            && DemoteTree(content, DemoteTree(content, tree)) != DemoteTree(content, tree)
  {
    var content := "[![a](i.png)](h)";
    var image := MdNode(Attrs("image", "", Some(Position(1, 12))), []);
    var link := MdNode(Attrs("link", "", Some(Position(0, 16))), [image]);
    var tree := MdNode(Attrs("root", "", None), [link]);
    assert Visitable(link, true);
    assert Visitable(tree, false);
    var once := DemoteTree(content, tree);
    assert once.children[0] == Demote(content, link, Some(0));
    assert once.children[0].children == [image];
    assert Visitable(image, true);
    assert Visitable(once.children[0], true);
    assert Visitable(once, false);
    var twice := DemoteTree(content, once);
    assert twice.children[0] == Demote(content, once.children[0], Some(0));
    assert twice.children[0].children[0] == Demote(content, image, Some(0));
    assert twice.children[0].children[0].attrs.kind == "text";
  }

  /**
    A markdown link in a paragraph comes back as its literal source, with a
    space before the closing parenthesis.
  */
  lemma InlineLinkBecomesText()
    ensures var content := "[a link](http://x.test/)";
            var link := MdNode(Attrs("link", "", Some(Position(0, 24))), [MdNode(Attrs("text", "a link", Some(Position(1, 7))), [])]);
            var tree := MdNode(Attrs("root", "", None), [MdNode(Attrs("paragraph", "", None), [link])]);
            && Visitable(tree, false)
            && DemoteTree(content, tree).children[0].children[0].attrs
               == Attrs("text", "[a link](http://x.test/ )", Some(Position(0, 24)))
  {
    var content := "[a link](http://x.test/)";
    var link := MdNode(Attrs("link", "", Some(Position(0, 24))), [MdNode(Attrs("text", "a link", Some(Position(1, 7))), [])]);
    var para := MdNode(Attrs("paragraph", "", None), [link]);
    var tree := MdNode(Attrs("root", "", None), [para]);
    assert Visitable(link, true);
    assert Visitable(para, true);
    assert Visitable(tree, false);
    var d := DemoteTree(content, tree);
    assert d.children[0] == Demote(content, para, Some(0));
    assert d.children[0].children[0] == Demote(content, link, Some(0));
    assert Slice(content, 0, 24) == content;
    assert SpaceTrailingParen(content) == "[a link](http://x.test/ )";
  }
}
