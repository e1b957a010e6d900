/**
  The child lists of TiXmlNode: every node points to its parent, to its first and last
  child, and to its neighbours among its siblings.  The operations are proved, on the heap,
  against the sequence of children, for a whole forest of nodes at once.

  Nodes handed to the insert and replace operations stand for the clones these make; a
  deleted node is modelled as a detached one.
 */
module XmlNode {
  import opened Basics

  datatype Kind = Document | Element | Comment | Unknown | Text | Declaration

  /** The pointers of one node, and the sequence its list stands for. */
  datatype Cell = Cell(parent: DomNode?, prev: DomNode?, next: DomNode?, first: DomNode?, last: DomNode?,
                       kids: seq<DomNode>)

  /** The pointers of a set of nodes at one moment. */
  type Links = map<DomNode, Cell>

  class DomNode {
    const kind: Kind
    const value: string
    var parent: DomNode?
    var firstChild: DomNode?
    var lastChild: DomNode?
    var prev: DomNode?
    var next: DomNode?
    ghost var children: seq<DomNode>

    constructor (kind: Kind, value: string)
      ensures this.kind == kind && this.value == value
      ensures parent == null && firstChild == null && lastChild == null && prev == null && next == null &&
              children == []
    {
      this.kind, this.value := kind, value;
      parent, firstChild, lastChild, prev, next := null, null, null, null, null;
      children := [];
    }
  }

  ghost function CellOf(n: DomNode): Cell
    reads n
  {
    Cell(n.parent, n.prev, n.next, n.firstChild, n.lastChild, n.children)
  }

  ghost function LinksOf(nodes: set<DomNode>): (g: Links)
    reads nodes
    ensures g.Keys == nodes && forall n | n in nodes :: g[n] == CellOf(n)
  {
    map n | n in nodes :: CellOf(n)
  }

  /** The child of p at position i, or null outside the list. */
  ghost function Child(g: Links, p: DomNode, i: int): DomNode?
    requires p in g
  {
    if 0 <= i < |g[p].kids| then g[p].kids[i] else null
  }

  ghost predicate LinkedAt(g: Links, p: DomNode, i: nat)
    requires p in g && i < |g[p].kids|
  {
    var c := g[p].kids[i];
    c in g && g[c].parent == p && g[c].prev == Child(g, p, i - 1) && g[c].next == Child(g, p, i + 1)
  }

  /** The pointers of p and of its children spell out the sequence. */
  ghost predicate Linked(g: Links, p: DomNode)
    requires p in g
  {
    && (forall i | 0 <= i < |g[p].kids| :: LinkedAt(g, p, i))
    && (forall i, j | 0 <= i < j < |g[p].kids| :: g[p].kids[i] != g[p].kids[j])
    && g[p].first == Child(g, p, 0) && g[p].last == Child(g, p, |g[p].kids| - 1)
  }

  ghost predicate HasPlace(g: Links, n: DomNode)
    requires n in g
  {
    g[n].parent != null ==> n.kind != Document && g[n].parent in g && n in g[g[n].parent].kids
  }

  /** All lists are well formed, and every node with a parent is in that parent's list and no
      document. */
  ghost predicate ForestLinks(g: Links) {
    (forall p | p in g :: Linked(g, p)) && forall n | n in g :: HasPlace(g, n)
  }

  ghost predicate Forest(nodes: set<DomNode>)
    reads nodes
  {
    ForestLinks(LinksOf(nodes))
  }

  /** Every list but that of `changed` is the same. */
  ghost predicate OthersKept(g: Links, h: Links, changed: DomNode) {
    g.Keys == h.Keys && forall p | p in g && p != changed :: h[p].kids == g[p].kids
  }

  // ---- splicing a list ----

  function Or(a: DomNode?, b: DomNode?): DomNode? { if a != null then a else b }

  function Size(mid: DomNode?): nat { if mid == null then 0 else 1 }

  /** The stretch [i, j) replaced by at most one node. */
  function Spliced(s: seq<DomNode>, i: nat, j: nat, mid: DomNode?): (t: seq<DomNode>)
    requires i <= j <= |s|
    ensures |t| == |s| - (j - i) + Size(mid)
    ensures forall k | 0 <= k < |t| ::
              t[k] == if k < i then s[k] else if k == i && mid != null then mid else s[k - Size(mid) + (j - i)]
  {
    s[..i] + (if mid == null then [] else [mid]) + s[j..]
  }

  /** ds is cs with the stretch from `from` to `to` past the child `at`, at place i, replaced by
      mid: nothing before it, nothing after it, or the child itself. */
  ghost predicate SplicedBy(cs: seq<DomNode>, ds: seq<DomNode>, at: DomNode?, mid: DomNode?, from: nat, to: nat, i: nat)
  {
    i < |cs| && cs[i] == at && from <= to <= 1 && ds == Spliced(cs, i + from, i + to, mid)
  }

  lemma There(cs: seq<DomNode>, ds: seq<DomNode>, mid: DomNode?, from: nat, to: nat, i: nat, lo: nat, hi: nat)
    requires i < |cs| && lo == i + from && hi == i + to && from <= to <= 1 && ds == Spliced(cs, lo, hi, mid)
    ensures exists k: nat :: SplicedBy(cs, ds, cs[i], mid, from, to, k)
  {
    assert SplicedBy(cs, ds, cs[i], mid, from, to, i);
  }

  /** The pointer writes all the operations come down to, seen from one node: between the
      neighbours `left` and `right`, `gone` is taken out and `mid` put in. */
  ghost predicate Relinked(a: Cell, b: Cell, n: DomNode, self: DomNode, left: DomNode?, right: DomNode?,
                           mid: DomNode?, gone: DomNode?) {
    && b.parent == (if n == mid then self else if n == gone then null else a.parent)
    && b.prev == (if n == mid then left else if n == gone then null else if n == right then Or(mid, left) else a.prev)
    && b.next == (if n == mid then right else if n == gone then null else if n == left then Or(mid, right) else a.next)
    && b.first == (if n == self && left == null then Or(mid, right) else a.first)
    && b.last == (if n == self && right == null then Or(mid, left) else a.last)
  }

  /** The same of all nodes, with the sequences still to be updated. */
  ghost predicate Rewired(g: Links, h: Links, self: DomNode, left: DomNode?, right: DomNode?, mid: DomNode?,
                          gone: DomNode?) {
    && h.Keys == g.Keys
    && forall x | x in g :: Relinked(g[x], h[x], x, self, left, right, mid, gone) && h[x].kids == g[x].kids
  }

  /** A list, one node or none of which is to be replaced by one node without a parent, or
      by none. */
  ghost predicate CanSplice(g: Links, self: DomNode, i: nat, j: nat, mid: DomNode?) {
    && ForestLinks(g) && self in g && i <= j <= |g[self].kids| && j <= i + 1
    && (mid != null ==> mid in g && g[mid].parent == null && mid.kind != Document)
    && (mid != null || i < j)
  }

  /** The node taken out where [i, j) is replaced. */
  ghost function Gone(g: Links, self: DomNode, i: nat, j: nat): DomNode?
    requires self in g && i <= j <= |g[self].kids|
  {
    if i < j then g[self].kids[i] else null
  }

  /** What replacing [i, j) of self's list by mid has done to node n. */
  ghost predicate SplicedNode(g: Links, h: Links, self: DomNode, i: nat, j: nat, mid: DomNode?, n: DomNode)
    requires self in g && n in g && n in h && i <= j <= |g[self].kids|
  {
    && Relinked(g[n], h[n], n, self, Child(g, self, i - 1), Child(g, self, j), mid, Gone(g, self, i, j))
    && (n != self ==> h[n].kids == g[n].kids)
  }

  ghost predicate SplicedAll(g: Links, h: Links, self: DomNode, i: nat, j: nat, mid: DomNode?) {
    && self in g && i <= j <= |g[self].kids| && h.Keys == g.Keys
    && h[self].kids == Spliced(g[self].kids, i, j, mid)
    && forall n | n in g :: SplicedNode(g, h, self, i, j, mid, n)
  }

  /** What is needed to see that child k of the new list is linked as its place asks. */
  ghost predicate SpliceAt(g: Links, h: Links, self: DomNode, i: nat, j: nat, mid: DomNode?, k: nat) {
    && self in g && self in h && i <= j <= |g[self].kids| && j <= i + 1 && Linked(g, self)
    && (mid != null ==> mid !in g[self].kids)
    && h[self].kids == Spliced(g[self].kids, i, j, mid) && k < |h[self].kids|
    && h[self].kids[k] in g && h[self].kids[k] in h
    && SplicedNode(g, h, self, i, j, mid, h[self].kids[k])
  }

  lemma MidLinked(g: Links, h: Links, self: DomNode, i: nat, j: nat, mid: DomNode?)
    requires mid != null && SpliceAt(g, h, self, i, j, mid, i)
    ensures LinkedAt(h, self, i)
  {
  }

  lemma LeftLinked(g: Links, h: Links, self: DomNode, i: nat, j: nat, mid: DomNode?, k: nat)
    requires k < i && SpliceAt(g, h, self, i, j, mid, k)
    ensures LinkedAt(h, self, k)
  {
    var was, n := g[self].kids, h[self].kids[k];
    assert n == was[k] && LinkedAt(g, self, k);
    assert forall x | 0 <= x < |was| && x != k :: was[x] != n;
  }

  lemma RightLinked(g: Links, h: Links, self: DomNode, i: nat, j: nat, mid: DomNode?, k: nat)
    requires (k > i || (k == i && mid == null)) && SpliceAt(g, h, self, i, j, mid, k)
    ensures LinkedAt(h, self, k)
  {
    var was, n, o := g[self].kids, h[self].kids[k], k - Size(mid) + (j - i);
    assert n == was[o] && LinkedAt(g, self, o);
    assert forall x | 0 <= x < |was| && x != o :: was[x] != n;
  }

  lemma SpliceLinkedAt(g: Links, h: Links, self: DomNode, i: nat, j: nat, mid: DomNode?, k: nat)
    requires SpliceAt(g, h, self, i, j, mid, k)
    ensures LinkedAt(h, self, k)
  {
    hide SplicedNode, Linked;
    if k < i { LeftLinked(g, h, self, i, j, mid, k); }
    else if k == i && mid != null { MidLinked(g, h, self, i, j, mid); }
    else { RightLinked(g, h, self, i, j, mid, k); }
  }

  lemma SplicedDistinct(g: Links, self: DomNode, i: nat, j: nat, mid: DomNode?)
    requires self in g && i <= j <= |g[self].kids| && Linked(g, self) && (mid != null ==> mid !in g[self].kids)
    ensures var t := Spliced(g[self].kids, i, j, mid); forall x, y | 0 <= x < y < |t| :: t[x] != t[y]
  {
  }

  lemma SplicedEnds(g: Links, h: Links, self: DomNode, i: nat, j: nat, mid: DomNode?)
    requires SplicedAll(g, h, self, i, j, mid) && Linked(g, self) && j <= i + 1 && (mid != null || i < j)
    ensures h[self].first == Child(h, self, 0) && h[self].last == Child(h, self, |h[self].kids| - 1)
  {
    assert SplicedNode(g, h, self, i, j, mid, self);
  }

  /** A node without a parent is in nobody's list. */
  lemma Outside(g: Links, p: DomNode, n: DomNode)
    requires p in g && Linked(g, p) && n in g && g[n].parent != p
    ensures n !in g[p].kids
  {
    forall k | 0 <= k < |g[p].kids| ensures g[p].kids[k] != n {
      assert LinkedAt(g, p, k);
    }
  }

  /** The list spliced is well formed again. */
  lemma SplicedLinked(g: Links, h: Links, self: DomNode, i: nat, j: nat, mid: DomNode?)
    requires CanSplice(g, self, i, j, mid) && SplicedAll(g, h, self, i, j, mid)
    ensures Linked(h, self)
  {
    assert Linked(g, self);
    if mid != null { Outside(g, self, mid); }
    SplicedDistinct(g, self, i, j, mid);
    SplicedEnds(g, h, self, i, j, mid);
    hide ForestLinks, SplicedNode, Spliced;
    forall k | 0 <= k < |h[self].kids| ensures LinkedAt(h, self, k) {
      NewChildKnown(g, h, self, i, j, mid, k);
      assert SpliceAt(g, h, self, i, j, mid, k);
      SpliceLinkedAt(g, h, self, i, j, mid, k);
    }
  }

  lemma NewChildKnown(g: Links, h: Links, self: DomNode, i: nat, j: nat, mid: DomNode?, k: nat)
    requires CanSplice(g, self, i, j, mid) && SplicedAll(g, h, self, i, j, mid) && k < |h[self].kids|
    ensures h[self].kids[k] in g
  {
    assert Linked(g, self);
    if k < i { assert LinkedAt(g, self, k); }
    else if k > i || mid == null { assert LinkedAt(g, self, k - Size(mid) + (j - i)); }
  }

  /** A list other than the one spliced keeps its links. */
  lemma OtherLinked(g: Links, h: Links, self: DomNode, i: nat, j: nat, mid: DomNode?, p: DomNode)
    requires CanSplice(g, self, i, j, mid) && SplicedAll(g, h, self, i, j, mid) && p in g && p != self
    ensures Linked(h, p)
  {
    assert Linked(g, p) && Linked(g, self) && SplicedNode(g, h, self, i, j, mid, p);
    forall k | 0 <= k < |h[p].kids| ensures LinkedAt(h, p, k) {
      var c := g[p].kids[k];
      assert LinkedAt(g, p, k) && SplicedNode(g, h, self, i, j, mid, c);
      Outside(g, self, c);
    }
  }

  lemma StillThere(s: seq<DomNode>, i: nat, j: nat, mid: DomNode?)
    requires i <= j <= |s|
    ensures forall x | 0 <= x < i || j <= x < |s| :: s[x] in Spliced(s, i, j, mid)
    ensures mid != null ==> mid in Spliced(s, i, j, mid)
  {
    var t := Spliced(s, i, j, mid);
    forall x | 0 <= x < i || j <= x < |s| ensures s[x] in t {
      assert t[if x < i then x else x + Size(mid) - (j - i)] == s[x];
    }
    if mid != null { assert t[i] == mid; }
  }

  lemma PlaceKept(g: Links, h: Links, self: DomNode, i: nat, j: nat, mid: DomNode?, n: DomNode)
    requires CanSplice(g, self, i, j, mid) && SplicedAll(g, h, self, i, j, mid) && n in g
    ensures HasPlace(h, n)
  {
    assert SplicedNode(g, h, self, i, j, mid, n) && HasPlace(g, n);
    var was := g[self].kids;
    StillThere(was, i, j, mid);
    if g[n].parent != null { assert SplicedNode(g, h, self, i, j, mid, g[n].parent); }
    hide ForestLinks, Spliced, SplicedAll;
    if g[n].parent == self {
      var x :| 0 <= x < |was| && was[x] == n;
    }
  }

  /** Splicing one list leaves the whole forest well formed and the other lists alone. */
  lemma SpliceForest(g: Links, h: Links, self: DomNode, i: nat, j: nat, mid: DomNode?)
    requires CanSplice(g, self, i, j, mid) && SplicedAll(g, h, self, i, j, mid)
    ensures ForestLinks(h) && OthersKept(g, h, self)
  {
    hide Linked, HasPlace, CanSplice, Spliced;
    forall p | p in h ensures Linked(h, p) {
      if p == self { SplicedLinked(g, h, self, i, j, mid); } else { OtherLinked(g, h, self, i, j, mid, p); }
    }
    forall n | n in h ensures HasPlace(h, n) { PlaceKept(g, h, self, i, j, mid, n); }
    forall p | p in g && p != self ensures h[p].kids == g[p].kids { assert SplicedNode(g, h, self, i, j, mid, p); }
  }

  /** Taking out what was put in gives the old list back. */
  lemma SpliceUndo(s: seq<DomNode>, i: nat, node: DomNode)
    requires i <= |s|
    ensures Spliced(Spliced(s, i, i, node), i, i + 1, null) == s
  {
    var t := Spliced(s, i, i, node);
    assert t[..i] == s[..i] && t[i + 1..] == s[i..];
  }

  // ---- the operations ----

  lemma ListFacts(g: Links, self: DomNode)
    requires ForestLinks(g) && self in g
    ensures g[self].first == Child(g, self, 0) && g[self].last == Child(g, self, |g[self].kids| - 1)
    ensures forall i | 0 <= i < |g[self].kids| :: g[self].kids[i] in g && g[g[self].kids[i]].parent == self
  {
    assert Linked(g, self);
    forall i | 0 <= i < |g[self].kids|
      ensures g[self].kids[i] in g && g[g[self].kids[i]].parent == self
    {
      assert LinkedAt(g, self, i);
    }
  }

  /** Where in its parent's list a child is. */
  lemma Position(g: Links, self: DomNode, child: DomNode) returns (i: nat)
    requires ForestLinks(g) && self in g && child in g && g[child].parent == self
    ensures i < |g[self].kids| && g[self].kids[i] == child
    ensures g[child].prev == Child(g, self, i - 1) && g[child].next == Child(g, self, i + 1)
    ensures Child(g, self, i - 1) != child && Child(g, self, i + 1) != child
    ensures var c := Child(g, self, i - 1); c != null ==> c in g && g[c].parent == self && c != Child(g, self, i + 1)
    ensures var c := Child(g, self, i + 1); c != null ==> c in g && g[c].parent == self
    ensures Child(g, self, i - 1) == null ==> g[self].first == child
    ensures Child(g, self, i + 1) == null ==> g[self].last == child
    ensures Child(g, self, i) == child && Gone(g, self, i, i + 1) == child
    ensures Gone(g, self, i, i) == null && Gone(g, self, i + 1, i + 1) == null
  {
    assert Linked(g, self) && HasPlace(g, child);
    i :| 0 <= i < |g[self].kids| && g[self].kids[i] == child;
    assert LinkedAt(g, self, i);
    if i > 0 { assert LinkedAt(g, self, i - 1); }
    if i + 1 < |g[self].kids| { assert LinkedAt(g, self, i + 1); }
  }

  ghost function WithKids(h: Links, p: DomNode, ks: seq<DomNode>): Links
    requires p in h
  {
    h[p := h[p].(kids := ks)]
  }

  /** Once all pointers are rewritten and the sequence is updated, the forest is whole. */
  lemma Finish(g: Links, h: Links, self: DomNode, i: nat, j: nat, mid: DomNode?)
    requires CanSplice(g, self, i, j, mid)
    requires Rewired(g, h, self, Child(g, self, i - 1), Child(g, self, j), mid, Gone(g, self, i, j))
    ensures var h' := WithKids(h, self, Spliced(g[self].kids, i, j, mid)); ForestLinks(h') && OthersKept(g, h', self)
  {
    hide ForestLinks, Spliced, Relinked;
    var h' := WithKids(h, self, Spliced(g[self].kids, i, j, mid));
    forall x | x in g ensures SplicedNode(g, h', self, i, j, mid, x) {
      assert h'[x] == h[x].(kids := h'[x].kids);
      SameRelinked(g[x], h[x], h'[x].kids, x, self, Child(g, self, i - 1), Child(g, self, j), mid, Gone(g, self, i, j));
    }
    SpliceForest(g, h', self, i, j, mid);
  }

  lemma SameRelinked(a: Cell, b: Cell, ks: seq<DomNode>, n: DomNode, self: DomNode, left: DomNode?, right: DomNode?,
                     mid: DomNode?, gone: DomNode?)
    requires Relinked(a, b, n, self, left, right, mid, gone)
    ensures Relinked(a, b.(kids := ks), n, self, left, right, mid, gone)
  {
  }

  ghost predicate Known(nodes: set<DomNode>, self: DomNode, left: DomNode?, right: DomNode?) {
    self in nodes && (left != null ==> left in nodes) && (right != null ==> right in nodes)
  }

  /** The links as they are but for a node that names its parent and is not in its list. */
  ghost function Unclaimed(g: Links, node: DomNode): Links
    requires node in g
  {
    g[node := g[node].(parent := null)]
  }

  lemma SameLists(g: Links, h: Links, self: DomNode)
    requires g.Keys == h.Keys && forall p | p in g :: h[p].kids == g[p].kids
    ensures OthersKept(g, h, self)
  {
  }

  /** The sequence follows the pointers. */
  ghost method UpdateKids(self: DomNode, kids: seq<DomNode>, nodes: set<DomNode>)
    requires self in nodes
    modifies self`children
    ensures LinksOf(nodes) == WithKids(old(LinksOf(nodes)), self, kids) && self.children == kids
  {
    self.children := kids;
  }

  /** Once all pointers are rewritten the sequence follows, and the forest is whole. */
  ghost method Settle(self: DomNode, i: nat, j: nat, mid: DomNode?, g: Links, nodes: set<DomNode>)
    requires CanSplice(g, self, i, j, mid) && g.Keys == nodes
    requires forall x | x in nodes ::
               Relinked(g[x], CellOf(x), x, self, Child(g, self, i - 1), Child(g, self, j), mid, Gone(g, self, i, j))
    requires forall x | x in nodes :: x.children == g[x].kids
    modifies self`children
    ensures Forest(nodes) && OthersKept(g, LinksOf(nodes), self)
    ensures self.children == Spliced(g[self].kids, i, j, mid)
  {
    hide ForestLinks, Spliced, Relinked, OthersKept;
    var h := LinksOf(nodes);
    Finish(g, h, self, i, j, mid);
    UpdateKids(self, Spliced(g[self].kids, i, j, mid), nodes);
  }

  /** What is left of a refused node's claim once it is deleted. */
  method Detach(node: DomNode, ghost nodes: set<DomNode>)
    requires node in nodes
    modifies node`parent
    ensures LinksOf(nodes) == Unclaimed(old(LinksOf(nodes)), node)
  {
    node.parent := null;
  }

  /** The pointer writes of LinkEndChild, whether or not the node is in the list already. */
  ghost predicate LinkedLast(g: Links, h: Links, self: DomNode, node: DomNode) {
    && h.Keys == g.Keys && self in g && node in g
    && forall x | x in g :: LinkedLastAt(g, h, self, node, x)
  }

  ghost predicate LinkedLastAt(g: Links, h: Links, self: DomNode, node: DomNode, x: DomNode)
    requires self in g && x in g && x in h
  {
    var was := g[self].last;
    && h[x].parent == (if x == node then self else g[x].parent)
    && h[x].prev == (if x == node then was else g[x].prev)
    && h[x].next == (if x == was then node else if x == node then null else g[x].next)
    && h[x].first == (if x == self && was == null then node else g[x].first)
    && h[x].last == (if x == self then node else g[x].last)
    && h[x].kids == g[x].kids
  }

  method LinkEndPointers(self: DomNode, node: DomNode, ghost nodes: set<DomNode>)
    requires node in nodes && Known(nodes, self, self.lastChild, null)
    modifies nodes
    ensures LinkedLast(old(LinksOf(nodes)), LinksOf(nodes), self, node) && self.children == old(self.children)
  {
    node.parent := self;
    node.prev := self.lastChild;
    node.next := null;
    if self.lastChild != null {
      self.lastChild.next := node;
    } else {
      self.firstChild := node;
    }
    self.lastChild := node;
    ghost var g, h := old(LinksOf(nodes)), LinksOf(nodes);
    forall x | x in g ensures LinkedLastAt(g, h, self, node, x) { }
  }

  lemma AppendsAt(g: Links, h: Links, self: DomNode, node: DomNode, x: DomNode)
    requires self in g && node in g && x in g && self in h && x in h && LinkedLastAt(g, h, self, node, x)
    requires g[self].first == Child(g, self, 0) && g[self].last == Child(g, self, |g[self].kids| - 1) != node
    ensures var u, n := Unclaimed(g, node), |g[self].kids|;
            SplicedNode(u, WithKids(h, self, g[self].kids + [node]), self, n, n, node, x)
  {
  }

  lemma AppendsAll(g: Links, h: Links, self: DomNode, node: DomNode)
    requires LinkedLast(g, h, self, node)
    requires g[self].first == Child(g, self, 0) && g[self].last == Child(g, self, |g[self].kids| - 1) != node
    ensures var u, n := Unclaimed(g, node), |g[self].kids|;
            SplicedAll(u, WithKids(h, self, g[self].kids + [node]), self, n, n, node)
  {
    var u, n := Unclaimed(g, node), |g[self].kids|;
    var h' := WithKids(h, self, g[self].kids + [node]);
    assert h'[self].kids == Spliced(u[self].kids, n, n, node);
    hide SplicedNode, LinkedLastAt, Spliced;
    forall x | x in u ensures SplicedNode(u, h', self, n, n, node, x) { AppendsAt(g, h, self, node, x); }
  }

  /** A node that was not in the list is appended, and the forest stays well formed. */
  lemma LinkAppends(g: Links, h: Links, self: DomNode, node: DomNode)
    requires LinkedLast(g, h, self, node) && ForestLinks(Unclaimed(g, node)) && node.kind != Document
    ensures var h' := WithKids(h, self, g[self].kids + [node]); ForestLinks(h') && OthersKept(g, h', self)
  {
    var u, n := Unclaimed(g, node), |g[self].kids|;
    assert u[self].kids == g[self].kids && node in u && u[node].parent == null;
    OrphanNotLast(u, self, node);
    hide ForestLinks, SplicedAll, LinkedLast;
    AppendsAll(g, h, self, node);
    SpliceForest(u, WithKids(h, self, g[self].kids + [node]), self, n, n, node);
  }

  lemma OrphanNotLast(g: Links, self: DomNode, node: DomNode)
    requires ForestLinks(g) && self in g && node in g && g[node].parent == null
    ensures g[self].first == Child(g, self, 0) && g[self].last == Child(g, self, |g[self].kids| - 1) != node
  {
    assert Linked(g, self);
    Outside(g, self, node);
  }

  /** The list as its prev pointers and its last child tell it. */
  ghost predicate Chained(g: Links, p: DomNode)
    requires p in g
  {
    (forall i | 0 <= i < |g[p].kids| :: LinkedAt(g, p, i)) && g[p].last == Child(g, p, |g[p].kids| - 1)
  }

  /** Following the prev pointers from the new last child passes the old children from the last
      one on, so it comes to the node a second time. */
  lemma {:induction false} WalkBack(g: Links, h: Links, self: DomNode, pos: nat, ks: seq<DomNode>, t: nat)
    requires self in g && Linked(g, self) && pos < |g[self].kids| && LinkedLast(g, h, self, g[self].kids[pos])
    requires Chained(WithKids(h, self, ks), self) && t < |g[self].kids| - pos
    ensures |ks| >= 2 + t && ks[|ks| - 2 - t] == g[self].kids[|g[self].kids| - 1 - t]
  {
    var was, h' := g[self].kids, WithKids(h, self, ks);
    if t == 0 {
      assert ks != [] && ks[|ks| - 1] == was[pos];
      assert LinkedAt(h', self, |ks| - 1);
    } else {
      WalkBack(g, h, self, pos, ks, t - 1);
      var x := was[|was| - t];
      assert LinkedAt(g, self, |was| - t) && x != was[pos];
      assert LinkedAt(h', self, |ks| - 1 - t);
      assert h'[x].prev == was[|was| - 1 - t];
    }
  }

  /** Linking a node at the end of the list it is in already: no sequence at all describes the
      pointers of the list any more. */
  lemma RelinkBreaks(g: Links, h: Links, self: DomNode, node: DomNode, ks: seq<DomNode>)
    requires self in g && Linked(g, self) && node in g[self].kids && LinkedLast(g, h, self, node)
    ensures !Linked(WithKids(h, self, ks), self)
  {
    if Chained(WithKids(h, self, ks), self) {
      var pos :| 0 <= pos < |g[self].kids| && g[self].kids[pos] == node;
      WalkBack(g, h, self, pos, ks, |g[self].kids| - 1 - pos);
      assert ks[|ks| - 1] == node;
    }
  }

  /** LinkEndChild: refuses a document, otherwise appends, and the list stays well formed if and
      only if the node was not in it already; the assertions of the code do not tell. */
  method LinkEndChild(self: DomNode, node: DomNode, ghost nodes: set<DomNode>) returns (r: DomNode?)
    requires self in nodes && node in nodes && (node.parent == null || node.parent == self)
    requires if node in self.children then Forest(nodes) else ForestLinks(Unclaimed(LinksOf(nodes), node))
    modifies nodes
    ensures r == if node.kind == Document then null else node
    ensures old(node !in self.children) ==>
              && Forest(nodes) && OthersKept(old(LinksOf(nodes)), LinksOf(nodes), self)
              && self.children == if r == null then old(self.children) else old(self.children) + [node]
    ensures old(node in self.children) ==>
              forall ks: seq<DomNode> :: !Linked(WithKids(LinksOf(nodes), self, ks), self)
  {
    hide ForestLinks, LinkedLast, OthersKept, Linked;
    ghost var g, known := LinksOf(nodes), node in self.children;
    if known { NoDocument(g, self, node); }
    if node.kind == Document {
      Detach(node, nodes);
      SameLists(g, LinksOf(nodes), self);
      return null;
    }
    ListFacts(if known then g else Unclaimed(g, node), self);
    LinkEndPointers(self, node, nodes);
    ghost var h := LinksOf(nodes);
    UpdateKids(self, if known then g[self].kids else g[self].kids + [node], nodes);
    if known { ListBroken(g, h, self, node); } else { LinkAppends(g, h, self, node); }
    return node;
  }

  /** RelinkBreaks, of the list as it stands. */
  lemma ListBroken(g: Links, h: Links, self: DomNode, node: DomNode)
    requires self in g && Linked(g, self) && node in g[self].kids && LinkedLast(g, h, self, node)
    ensures forall ks: seq<DomNode> :: !Linked(WithKids(WithKids(h, self, g[self].kids), self, ks), self)
  {
    forall ks: seq<DomNode> ensures !Linked(WithKids(WithKids(h, self, g[self].kids), self, ks), self) {
      RelinkBreaks(g, h, self, node, ks);
      assert WithKids(WithKids(h, self, g[self].kids), self, ks) == WithKids(h, self, ks);
    }
  }

  lemma NoDocument(g: Links, self: DomNode, node: DomNode)
    requires ForestLinks(g) && self in g && node in g[self].kids
    ensures node.kind != Document && node in g && Linked(g, self)
  {
    var i :| 0 <= i < |g[self].kids| && g[self].kids[i] == node;
    assert Linked(g, self) && LinkedAt(g, self, i) && HasPlace(g, node);
  }

  /** The neighbour on the right, or the end of the list, points back to v. */
  method PointBack(self: DomNode, right: DomNode?, v: DomNode?, ghost nodes: set<DomNode>)
    requires Known(nodes, self, null, right)
    modifies nodes`prev, self`lastChild
    ensures forall x | x in nodes :: x.prev == if x == right then v else old(x.prev)
    ensures self.lastChild == if right == null then v else old(self.lastChild)
  {
    if right != null {
      right.prev := v;
    } else {
      self.lastChild := v;
    }
  }

  /** The neighbour on the left, or the start of the list, points on to v. */
  method PointOn(self: DomNode, left: DomNode?, v: DomNode?, ghost nodes: set<DomNode>)
    requires Known(nodes, self, left, null)
    modifies nodes`next, self`firstChild
    ensures forall x | x in nodes :: x.next == if x == left then v else old(x.next)
    ensures self.firstChild == if left == null then v else old(self.firstChild)
  {
    if left != null {
      left.next := v;
    } else {
      self.firstChild := v;
    }
  }

  /** What is left of a node that is deleted. */
  method Unlink(node: DomNode)
    modifies node`parent, node`prev, node`next
    ensures node.parent == null && node.prev == null && node.next == null
  {
    node.parent, node.prev, node.next := null, null, null;
  }

  method InsertBeforePointers(self: DomNode, beforeThis: DomNode, node: DomNode, ghost nodes: set<DomNode>)
    requires Known(nodes, self, beforeThis.prev, beforeThis) && node in nodes
    requires beforeThis != node && beforeThis.prev != node && beforeThis.prev != beforeThis
    requires beforeThis.prev == null ==> self.firstChild == beforeThis
    modifies nodes`parent, nodes`prev, nodes`next, self`firstChild
    ensures forall x | x in nodes ::
              Relinked(old(CellOf(x)), CellOf(x), x, self, old(beforeThis.prev), beforeThis, node, null)
  {
    node.parent := self;
    node.next := beforeThis;
    node.prev := beforeThis.prev;
    assert beforeThis.prev == null ==> self.firstChild == beforeThis;
    PointOn(self, beforeThis.prev, node, nodes);
    beforeThis.prev := node;
  }

  /** InsertBeforeChild: refuses a node that is not a child of this one, and a document. */
  method InsertBeforeChild(self: DomNode, beforeThis: DomNode?, node: DomNode, ghost nodes: set<DomNode>)
    returns (r: DomNode?)
    requires Forest(nodes) && self in nodes && node in nodes && node.parent == null
    requires beforeThis != null ==> beforeThis in nodes
    modifies nodes
    ensures Forest(nodes) && OthersKept(old(LinksOf(nodes)), LinksOf(nodes), self)
    ensures r == if beforeThis == null || old(beforeThis.parent) != self || node.kind == Document then null else node
    ensures r == null ==> self.children == old(self.children)
    ensures r != null ==> exists i: nat :: SplicedBy(old(self.children), self.children, beforeThis, node, 0, 0, i)
  {
    if beforeThis == null || beforeThis.parent != self {
      return null;
    }
    if node.kind == Document {
      return null;
    }
    ghost var g := LinksOf(nodes);
    hide ForestLinks, Spliced, SplicedBy, Relinked, OthersKept, CellOf, Child, Gone;
    ghost var i := Position(g, self, beforeThis);
    InsertBeforePointers(self, beforeThis, node, nodes);
    Settle(self, i, i, node, g, nodes);
    There(g[self].kids, self.children, node, 0, 0, i, i, i);
    return node;
  }

  method InsertAfterPointers(self: DomNode, afterThis: DomNode, node: DomNode, ghost nodes: set<DomNode>)
    requires Known(nodes, self, afterThis, afterThis.next) && node in nodes
    requires afterThis != node && afterThis.next != node && afterThis.next != afterThis
    requires afterThis.next == null ==> self.lastChild == afterThis
    modifies nodes`parent, nodes`prev, nodes`next, self`lastChild
    ensures forall x | x in nodes ::
              Relinked(old(CellOf(x)), CellOf(x), x, self, afterThis, old(afterThis.next), node, null)
  {
    node.parent := self;
    node.prev := afterThis;
    node.next := afterThis.next;
    assert afterThis.next == null ==> self.lastChild == afterThis;
    PointBack(self, afterThis.next, node, nodes);
    afterThis.next := node;
  }

  method InsertAfterChild(self: DomNode, afterThis: DomNode?, node: DomNode, ghost nodes: set<DomNode>)
    returns (r: DomNode?)
    requires Forest(nodes) && self in nodes && node in nodes && node.parent == null
    requires afterThis != null ==> afterThis in nodes
    modifies nodes
    ensures Forest(nodes) && OthersKept(old(LinksOf(nodes)), LinksOf(nodes), self)
    ensures r == if afterThis == null || old(afterThis.parent) != self || node.kind == Document then null else node
    ensures r == null ==> self.children == old(self.children)
    ensures r != null ==> exists i: nat :: SplicedBy(old(self.children), self.children, afterThis, node, 1, 1, i)
  {
    if afterThis == null || afterThis.parent != self {
      return null;
    }
    if node.kind == Document {
      return null;
    }
    ghost var g := LinksOf(nodes);
    hide ForestLinks, Spliced, SplicedBy, Relinked, OthersKept, CellOf, Child, Gone;
    ghost var i := Position(g, self, afterThis);
    InsertAfterPointers(self, afterThis, node, nodes);
    Settle(self, i + 1, i + 1, node, g, nodes);
    There(g[self].kids, self.children, node, 1, 1, i, i + 1, i + 1);
    return node;
  }

  method ReplacePointers(self: DomNode, replaceThis: DomNode, node: DomNode, ghost nodes: set<DomNode>)
    requires Known(nodes, self, replaceThis.prev, replaceThis.next) && node in nodes && replaceThis in nodes &&
             node != replaceThis
    requires replaceThis.prev != node && replaceThis.next != node && replaceThis.prev != replaceThis &&
             replaceThis.next != replaceThis
    modifies nodes`parent, nodes`prev, nodes`next, self`firstChild, self`lastChild
    ensures forall x | x in nodes ::
              Relinked(old(CellOf(x)), CellOf(x), x, self, old(replaceThis.prev), old(replaceThis.next), node,
                       replaceThis)
  {
    node.next := replaceThis.next;
    node.prev := replaceThis.prev;
    PointBack(self, replaceThis.next, node, nodes);
    PointOn(self, replaceThis.prev, node, nodes);
    Unlink(replaceThis);
    node.parent := self;
  }

  /** ReplaceChild: the new child takes the old one's place. */
  method ReplaceChild(self: DomNode, replaceThis: DomNode?, node: DomNode, ghost nodes: set<DomNode>)
    returns (r: DomNode?)
    requires Forest(nodes) && self in nodes && node in nodes && node.parent == null
    requires replaceThis != null ==> replaceThis in nodes
    modifies nodes
    ensures Forest(nodes) && OthersKept(old(LinksOf(nodes)), LinksOf(nodes), self)
    ensures r == if replaceThis == null || old(replaceThis.parent) != self || node.kind == Document then null else node
    ensures r == null ==> self.children == old(self.children)
    ensures r != null ==> exists i: nat :: SplicedBy(old(self.children), self.children, replaceThis, node, 0, 1, i)
  {
    if replaceThis == null {
      return null;
    }
    if replaceThis.parent != self {
      return null;
    }
    if node.kind == Document {
      return null;
    }
    ghost var g := LinksOf(nodes);
    hide ForestLinks, Spliced, SplicedBy, Relinked, OthersKept, CellOf, Child, Gone;
    ghost var i := Position(g, self, replaceThis);
    ReplacePointers(self, replaceThis, node, nodes);
    Settle(self, i, i + 1, node, g, nodes);
    There(g[self].kids, self.children, node, 0, 1, i, i, i + 1);
    return node;
  }

  method RemovePointers(self: DomNode, removeThis: DomNode, ghost nodes: set<DomNode>)
    requires Known(nodes, self, removeThis.prev, removeThis.next) && removeThis in nodes
    requires removeThis.prev != removeThis && removeThis.next != removeThis
    modifies nodes`parent, nodes`prev, nodes`next, self`firstChild, self`lastChild
    ensures forall x | x in nodes ::
              Relinked(old(CellOf(x)), CellOf(x), x, self, old(removeThis.prev), old(removeThis.next), null, removeThis)
  {
    PointBack(self, removeThis.next, removeThis.prev, nodes);
    PointOn(self, removeThis.prev, removeThis.next, nodes);
    Unlink(removeThis);
  }

  method RemoveChild(self: DomNode, removeThis: DomNode?, ghost nodes: set<DomNode>) returns (ok: bool)
    requires Forest(nodes) && self in nodes && (removeThis != null ==> removeThis in nodes)
    modifies nodes
    ensures Forest(nodes) && OthersKept(old(LinksOf(nodes)), LinksOf(nodes), self)
    ensures ok <==> removeThis != null && old(removeThis.parent) == self
    ensures !ok ==> self.children == old(self.children)
    ensures ok ==> exists i: nat :: SplicedBy(old(self.children), self.children, removeThis, null, 0, 1, i)
  {
    if removeThis == null {
      return false;
    }
    if removeThis.parent != self {
      return false;
    }
    ghost var g := LinksOf(nodes);
    hide ForestLinks, Spliced, SplicedBy, Relinked, OthersKept, CellOf, Child, Gone;
    ghost var i := Position(g, self, removeThis);
    RemovePointers(self, removeThis, nodes);
    Settle(self, i, i + 1, null, g, nodes);
    There(g[self].kids, self.children, null, 0, 1, i, i, i + 1);
    return true;
  }

  lemma NextChild(g: Links, self: DomNode, i: nat)
    requires ForestLinks(g) && self in g && i < |g[self].kids|
    ensures g[self].kids[i] in g && g[g[self].kids[i]].next == Child(g, self, i + 1)
  {
    assert Linked(g, self) && LinkedAt(g, self, i);
  }

  /** FirstChild by value: following the next pointers visits the children in order, so the
      first with the value is found, or none has it. */
  method FirstChild(self: DomNode, value: string, ghost nodes: set<DomNode>) returns (r: DomNode?)
    requires Forest(nodes) && self in nodes
    ensures r == null ==> forall i | 0 <= i < |self.children| :: self.children[i].value != value
    ensures r != null ==> exists i | 0 <= i < |self.children| ::
              r == self.children[i] && r.value == value && forall k | 0 <= k < i :: self.children[k].value != value
  {
    ghost var g := LinksOf(nodes);
    hide ForestLinks;
    ListFacts(g, self);
    r := self.firstChild;
    ghost var i := 0;
    while r != null
      invariant 0 <= i <= |self.children| && r == Child(g, self, i)
      invariant forall k | 0 <= k < i :: self.children[k].value != value
      decreases |self.children| - i
    {
      if r.value == value {
        return;
      }
      NextChild(g, self, i);
      r := r.next;
      i := i + 1;
    }
  }

  // ---- runs ----

  /** Calls on nodes known by the order they were made in.  A position out of range stands for a
      null pointer, a parent out of range for no call at all.  The clone that insert and replace
      put in is made first, and left unused where they refuse. */
  datatype Op =
    | Create(kind: Kind, value: string)
    | LinkEnd(p: nat, n: nat)
    | InsertBefore(p: nat, at: nat, kind: Kind, value: string)
    | InsertAfter(p: nat, at: nat, kind: Kind, value: string)
    | Replace(p: nat, at: nat, kind: Kind, value: string)
    | Remove(p: nat, at: nat)

  /** The nodes as plain lists: each node's kind and its children. */
  datatype Model = Model(kinds: seq<Kind>, kids: seq<seq<nat>>)

  function IndexOf(s: seq<nat>, x: nat): (i: nat)
    ensures i <= |s| && (i < |s| ==> s[i] == x) && (i == |s| <==> x !in s)
  {
    if s == [] || s[0] == x then 0 else 1 + IndexOf(s[1..], x)
  }

  predicate IsChild(m: Model, n: nat) { exists q | 0 <= q < |m.kids| :: n in m.kids[q] }

  function Grown(m: Model, kind: Kind): Model { Model(m.kinds + [kind], m.kids + [[]]) }

  function Edited(m: Model, p: nat, i: nat, j: nat, mid: seq<nat>): Model
    requires p < |m.kids| && i <= j <= |m.kids[p]|
  {
    m.(kids := m.kids[p := m.kids[p][..i] + mid + m.kids[p][j..]])
  }

  /** A clone put in at the place of a child, next to it, or instead of it. */
  function Placed(m: Model, p: nat, at: nat, kind: Kind, before: nat, after: nat): Model
    requires |m.kids| == |m.kinds| && before <= after <= 1
  {
    if p >= |m.kids| then m
    else
      var w, i := Grown(m, kind), IndexOf(m.kids[p], at);
      if i == |m.kids[p]| || kind == Document then w else Edited(w, p, i + before, i + after, [|m.kinds|])
  }

  /** None where an assertion fails or the list breaks: linking a node that is a child already,
      and removing one that is not a child. */
  function Step(m: Model, op: Op): (r: Option<Model>)
    requires |m.kids| == |m.kinds|
    ensures r.Some? ==> |r.value.kids| == |r.value.kinds|
  {
    match op
    case Create(kind, _) => Some(Grown(m, kind))
    case LinkEnd(p, n) =>
      if p >= |m.kids| || n >= |m.kids| || m.kinds[n] == Document then Some(m)
      else if IsChild(m, n) then None
      else Some(Edited(m, p, |m.kids[p]|, |m.kids[p]|, [n]))
    case InsertBefore(p, at, kind, _) => Some(Placed(m, p, at, kind, 0, 0))
    case InsertAfter(p, at, kind, _) => Some(Placed(m, p, at, kind, 1, 1))
    case Replace(p, at, kind, _) => Some(Placed(m, p, at, kind, 0, 1))
    case Remove(p, at) =>
      if p >= |m.kids| || at >= |m.kids| then Some(m)
      else
        var i := IndexOf(m.kids[p], at);
        if i == |m.kids[p]| then None else Some(Edited(m, p, i, i + 1, []))
  }

  function StateAfter(ops: seq<Op>): (r: Option<Model>)
    ensures r.Some? ==> |r.value.kids| == |r.value.kinds|
  {
    if ops == [] then Some(Model([], []))
    else
      match StateAfter(ops[..|ops| - 1])
      case None => None
      case Some(m) => Step(m, ops[|ops| - 1])
  }

  ghost function Nodes(all: seq<DomNode>): set<DomNode> { set x | x in all }

  ghost predicate Same(all: seq<DomNode>, cs: seq<DomNode>, ks: seq<nat>) {
    |cs| == |ks| && forall i | 0 <= i < |ks| :: ks[i] < |all| && cs[i] == all[ks[i]]
  }

  /** The lists of the nodes are those of the model. */
  ghost predicate Represents(g: Links, all: seq<DomNode>, m: Model) {
    && |all| == |m.kinds| == |m.kids|
    && (forall p, q | 0 <= p < q < |all| :: all[p] != all[q])
    && (forall p | 0 <= p < |all| :: all[p] in g && all[p].kind == m.kinds[p] && Same(all, g[all[p]].kids, m.kids[p]))
  }

  lemma EditedSame(all: seq<DomNode>, cs: seq<DomNode>, ks: seq<nat>, i: nat, j: nat, mid: DomNode?, k: seq<nat>)
    requires Same(all, cs, ks) && i <= j <= |ks|
    requires if mid == null then k == [] else |k| == 1 && k[0] < |all| && all[k[0]] == mid
    ensures Same(all, Spliced(cs, i, j, mid), ks[..i] + k + ks[j..])
  {
  }

  /** An operation that spliced one list edited the model in the same place. */
  lemma EditedRepresents(g: Links, h: Links, all: seq<DomNode>, m: Model, p: nat, i: nat, j: nat, mid: DomNode?,
                         k: seq<nat>)
    requires Represents(g, all, m) && p < |all| && OthersKept(g, h, all[p])
    requires i <= j <= |m.kids[p]| && |g[all[p]].kids| == |m.kids[p]|
    requires h[all[p]].kids == Spliced(g[all[p]].kids, i, j, mid)
    requires if mid == null then k == [] else |k| == 1 && k[0] < |all| && all[k[0]] == mid
    ensures Represents(h, all, Edited(m, p, i, j, k))
  {
    EditedSame(all, g[all[p]].kids, m.kids[p], i, j, mid, k);
    hide Same, Spliced;
  }

  lemma KeptRepresents(g: Links, h: Links, all: seq<DomNode>, m: Model, p: nat)
    requires Represents(g, all, m) && p < |all| && OthersKept(g, h, all[p]) && h[all[p]].kids == g[all[p]].kids
    ensures Represents(h, all, m)
  {
    hide Same;
  }

  /** A node's parent pointer and the model's lists say the same. */
  lemma ParentIff(g: Links, all: seq<DomNode>, m: Model, p: nat, n: nat)
    requires ForestLinks(g) && Represents(g, all, m) && p < |all| && n < |all|
    ensures g[all[n]].parent == all[p] <==> n in m.kids[p]
  {
    var child, kids := all[n], g[all[p]].kids;
    assert Linked(g, all[p]) && HasPlace(g, child);
    if n in m.kids[p] {
      var i :| 0 <= i < |m.kids[p]| && m.kids[p][i] == n;
      assert LinkedAt(g, all[p], i);
    }
    if g[child].parent == all[p] {
      var i :| 0 <= i < |kids| && kids[i] == child;
      assert m.kids[p][i] == n;
    }
  }

  lemma OrphanIff(g: Links, all: seq<DomNode>, m: Model, n: nat)
    requires ForestLinks(g) && g.Keys == Nodes(all) && Represents(g, all, m) && n < |all|
    ensures g[all[n]].parent == null <==> !IsChild(m, n)
    ensures IsChild(m, n) ==> m.kinds[n] != Document
  {
    assert HasPlace(g, all[n]);
    if g[all[n]].parent != null {
      var q :| 0 <= q < |all| && all[q] == g[all[n]].parent;
      ParentIff(g, all, m, q, n);
    }
    if IsChild(m, n) {
      var q :| 0 <= q < |m.kids| && n in m.kids[q];
      ParentIff(g, all, m, q, n);
    }
  }

  /** The place of a child in its list is the one the model finds. */
  lemma SamePlace(g: Links, all: seq<DomNode>, m: Model, p: nat, at: nat, i: nat)
    requires ForestLinks(g) && Represents(g, all, m) && p < |all| && at < |all|
    requires i < |g[all[p]].kids| && g[all[p]].kids[i] == all[at]
    ensures IndexOf(m.kids[p], at) == i && |m.kids[p]| == |g[all[p]].kids|
  {
    assert Linked(g, all[p]);
    assert m.kids[p][i] == at;
  }

  /** A node just made can join the forest. */
  lemma NewNode(g: Links, n: DomNode)
    requires ForestLinks(g) && n !in g
    ensures ForestLinks(g[n := Cell(null, null, null, null, null, [])])
  {
    var h := g[n := Cell(null, null, null, null, null, [])];
    forall p | p in h ensures Linked(h, p) {
      if p != n {
        assert Linked(g, p);
        forall i | 0 <= i < |h[p].kids| ensures LinkedAt(h, p, i) { assert LinkedAt(g, p, i); }
      }
    }
    forall x | x in h ensures HasPlace(h, x) { if x != n { assert HasPlace(g, x); } }
  }

  /** The nodes of a run and the model they stand for. */
  ghost predicate Stands(all: seq<DomNode>, m: Model)
    reads all
  {
    Forest(Nodes(all)) && Represents(LinksOf(Nodes(all)), all, m)
  }

  method Make(all: seq<DomNode>, kind: Kind, value: string, ghost m: Model) returns (more: seq<DomNode>)
    requires Stands(all, m)
    ensures |more| == |all| + 1 && more[..|all|] == all && fresh(more[|all|])
    ensures more[|all|].parent == null && more[|all|].kind == kind
    ensures Stands(more, Grown(m, kind))
  {
    ghost var g := LinksOf(Nodes(all));
    var node := new DomNode(kind, value);
    more := all + [node];
    hide ForestLinks;
    NewNode(g, node);
    assert LinksOf(Nodes(more)) == g[node := Cell(null, null, null, null, null, [])];
    MoreSame(all, node, g, m);
  }

  lemma MoreSame(all: seq<DomNode>, node: DomNode, g: Links, m: Model)
    requires Represents(g, all, m) && node !in all
    ensures var h := g[node := Cell(null, null, null, null, null, [])]; Represents(h, all + [node], Grown(m, node.kind))
  {
    var more := all + [node];
    var h := g[node := Cell(null, null, null, null, null, [])];
    forall p | 0 <= p < |all| ensures Same(more, h[all[p]].kids, m.kids[p]) { }
  }

  predicate Puts(op: Op) { op.InsertBefore? || op.InsertAfter? || op.Replace? }

  /** The stretch of the list that op replaces, from the child's place on. */
  function From(op: Op): nat { if op.InsertAfter? then 1 else 0 }

  function To(op: Op): nat { if op.InsertBefore? then 0 else 1 }

  /** What the insert and replace operations promise about the lists is what the model says. */
  lemma PutRepresents(g: Links, h: Links, all: seq<DomNode>, m: Model, op: Op, i: nat)
    requires Puts(op) && |all| == |m.kinds| + 1 && |m.kids| == |m.kinds| && op.p < |m.kinds| && op.at < |m.kinds|
    requires ForestLinks(g) && Represents(g, all, Grown(m, op.kind)) && OthersKept(g, h, all[op.p])
    requires op.kind != Document &&
             SplicedBy(g[all[op.p]].kids, h[all[op.p]].kids, all[op.at], all[|m.kinds|], From(op), To(op), i)
    ensures Represents(h, all, Step(m, op).value)
  {
    hide ForestLinks, Spliced, Same, OthersKept;
    var w := Grown(m, op.kind);
    assert w.kids[op.p] == m.kids[op.p];
    SamePlace(g, all, w, op.p, op.at, i);
    EditedRepresents(g, h, all, w, op.p, i + From(op), i + To(op), all[|m.kinds|], [|m.kinds|]);
  }

  lemma RefusedRepresents(g: Links, h: Links, all: seq<DomNode>, m: Model, op: Op)
    requires Puts(op) && |all| == |m.kinds| + 1 && |m.kids| == |m.kinds| && op.p < |m.kinds|
    requires ForestLinks(g) && Represents(g, all, Grown(m, op.kind)) && OthersKept(g, h, all[op.p])
    requires !(op.at < |m.kinds| && g[all[op.at]].parent == all[op.p] && op.kind != Document)
    requires h[all[op.p]].kids == g[all[op.p]].kids && forall k | k in m.kids[op.p] :: k < |m.kinds|
    ensures Represents(h, all, Step(m, op).value)
  {
    hide ForestLinks, Same, OthersKept;
    var w := Grown(m, op.kind);
    assert w.kids[op.p] == m.kids[op.p];
    if op.at < |m.kinds| { ParentIff(g, all, w, op.p, op.at); }
    KeptRepresents(g, h, all, w, op.p);
  }

  method PutNode(self: DomNode, at: DomNode?, node: DomNode, op: Op, ghost nodes: set<DomNode>) returns (done: bool)
    requires Puts(op) && Forest(nodes) && self in nodes && node in nodes && node.parent == null
    requires at != null ==> at in nodes
    modifies nodes
    ensures Forest(nodes) && OthersKept(old(LinksOf(nodes)), LinksOf(nodes), self)
    ensures done <==> at != null && old(at.parent) == self && node.kind != Document
    ensures !done ==> self.children == old(self.children)
    ensures done ==> exists i: nat :: SplicedBy(old(self.children), self.children, at, node, From(op), To(op), i)
  {
    hide ForestLinks, OthersKept, SplicedBy;
    var r;
    match op {
      case InsertBefore(_, _, _, _) =>
        r := InsertBeforeChild(self, at, node, nodes);
        assert From(op) == 0 && To(op) == 0;
      case InsertAfter(_, _, _, _) =>
        r := InsertAfterChild(self, at, node, nodes);
        assert From(op) == 1 && To(op) == 1;
      case Replace(_, _, _, _) =>
        r := ReplaceChild(self, at, node, nodes);
        assert From(op) == 0 && To(op) == 1;
    }
    done := r != null;
  }

  /** The call itself, once the clone is made. */
  method PlaceClone(all: seq<DomNode>, op: Op, ghost m: Model)
    requires Puts(op) && |all| == |m.kinds| + 1 && |m.kids| == |m.kinds| && op.p < |m.kinds|
    requires Stands(all, Grown(m, op.kind)) && all[|m.kinds|].parent == null && all[|m.kinds|].kind == op.kind
    requires forall k | k in m.kids[op.p] :: k < |m.kinds|
    modifies all
    ensures Stands(all, Step(m, op).value)
  {
    hide ForestLinks, OthersKept, Grown, Placed, Represents, SplicedBy;
    var self, node := all[op.p], all[|all| - 1];
    var at: DomNode? := if op.at < |all| - 1 then all[op.at] else null;
    ghost var g := LinksOf(Nodes(all));
    var done := PutNode(self, at, node, op, Nodes(all));
    ghost var h := LinksOf(Nodes(all));
    if done {
      ghost var i: nat :| SplicedBy(g[self].kids, h[self].kids, at, node, From(op), To(op), i);
      PutRepresents(g, h, all, m, op, i);
    } else {
      RefusedRepresents(g, h, all, m, op);
    }
  }

  method Place(all: seq<DomNode>, op: Op, ghost m: Model) returns (more: seq<DomNode>)
    requires Stands(all, m) && Puts(op) && op.p < |all|
    modifies all
    ensures |more| == |all| + 1 && more[..|all|] == all && fresh(more[|all|])
    ensures Step(m, op).Some? && Stands(more, Step(m, op).value)
  {
    hide Stands, Grown, Placed;
    KidsInRange(all, m, op.p);
    more := Make(all, op.kind, op.value, m);
    PlaceClone(more, op, m);
  }

  lemma KidsInRange(all: seq<DomNode>, m: Model, p: nat)
    requires Stands(all, m) && p < |all|
    ensures |m.kids| == |m.kinds| == |all| && forall k | k in m.kids[p] :: k < |m.kinds|
  {
    KidsKnown(all, LinksOf(Nodes(all)), m, p);
  }

  lemma KidsKnown(all: seq<DomNode>, g: Links, m: Model, p: nat)
    requires Represents(g, all, m) && p < |all|
    ensures |m.kids| == |m.kinds| == |all| && forall k | k in m.kids[p] :: k < |m.kinds|
  {
    assert Same(all, g[all[p]].kids, m.kids[p]);
  }

  /** The list without one child. */
  lemma RemovedRepresents(g: Links, h: Links, all: seq<DomNode>, m: Model, p: nat, at: nat, i: nat)
    requires ForestLinks(g) && Represents(g, all, m) && p < |all| && at < |all| && OthersKept(g, h, all[p])
    requires i < |g[all[p]].kids| && g[all[p]].kids[i] == all[at]
    requires h[all[p]].kids == Spliced(g[all[p]].kids, i, i + 1, null)
    ensures Step(m, Remove(p, at)).Some? && Represents(h, all, Step(m, Remove(p, at)).value)
  {
    hide ForestLinks, Spliced, Same, OthersKept;
    SamePlace(g, all, m, p, at, i);
    EditedRepresents(g, h, all, m, p, i, i + 1, null, []);
  }

  method TakeOut(all: seq<DomNode>, p: nat, at: nat, ghost m: Model) returns (ok: bool)
    requires Stands(all, m) && p < |all| && at < |all|
    modifies all
    ensures ok <==> Step(m, Remove(p, at)).Some?
    ensures ok ==> Stands(all, Step(m, Remove(p, at)).value)
  {
    hide ForestLinks, OthersKept, Represents;
    ghost var g := LinksOf(Nodes(all));
    ParentIff(g, all, m, p, at);
    KidsKnown(all, g, m, p);
    ok := RemoveChild(all[p], all[at], Nodes(all));
    if ok {
      ghost var i: nat :| SplicedBy(g[all[p]].kids, all[p].children, all[at], null, 0, 1, i);
      RemovedRepresents(g, LinksOf(Nodes(all)), all, m, p, at, i);
    }
  }

  lemma LinkedRepresents(g: Links, h: Links, all: seq<DomNode>, m: Model, p: nat, n: nat)
    requires Represents(g, all, m) && p < |all| && n < |all| && OthersKept(g, h, all[p])
    requires h[all[p]].kids == g[all[p]].kids + [all[n]]
    ensures Represents(h, all, Edited(m, p, |m.kids[p]|, |m.kids[p]|, [n]))
  {
    var k := |m.kids[p]|;
    assert h[all[p]].kids == Spliced(g[all[p]].kids, k, k, all[n]);
    EditedRepresents(g, h, all, m, p, k, k, all[n], [n]);
  }

  /** A document is refused.  A node that has a parent already fails the assertion or, if it is
      this one, breaks the list. */
  method LinkLast(all: seq<DomNode>, p: nat, n: nat, ghost m: Model) returns (ok: bool)
    requires Stands(all, m) && p < |all| && n < |all|
    modifies all
    ensures ok <==> Step(m, LinkEnd(p, n)).Some?
    ensures ok ==> Stands(all, Step(m, LinkEnd(p, n)).value)
  {
    hide ForestLinks, OthersKept, Represents, Linked, Edited, IsChild;
    var self, node := all[p], all[n];
    ghost var g := LinksOf(Nodes(all));
    OrphanIff(g, all, m, n);
    KidsKnown(all, g, m, p);
    if node.parent != null && node.parent != self {
      return false;
    }
    ok := node.parent == null;
    ParentIff(g, all, m, p, n);
    InListIff(g, all, m, p, n);
    assert ok ==> Unclaimed(g, node) == g;
    var r := LinkEndChild(self, node, Nodes(all));
    if ok {
      ghost var h := LinksOf(Nodes(all));
      if r == null { KeptRepresents(g, h, all, m, p); } else { LinkedRepresents(g, h, all, m, p, n); }
    }
  }

  lemma InListIff(g: Links, all: seq<DomNode>, m: Model, p: nat, n: nat)
    requires Represents(g, all, m) && p < |all| && n < |all|
    ensures all[n] in g[all[p]].kids <==> n in m.kids[p]
    ensures all[n].kind == m.kinds[n]
  {
    assert Same(all, g[all[p]].kids, m.kids[p]);
    if n in m.kids[p] {
      var i :| 0 <= i < |m.kids[p]| && m.kids[p][i] == n;
      assert g[all[p]].kids[i] == all[n];
    }
  }

  /** One call. */
  method Apply(all: seq<DomNode>, op: Op, ghost m: Model) returns (more: seq<DomNode>, ok: bool)
    requires Stands(all, m)
    modifies all
    ensures |m.kids| == |m.kinds| && all <= more && forall k | |all| <= k < |more| :: fresh(more[k])
    ensures ok <==> Step(m, op).Some?
    ensures ok ==> Stands(more, Step(m, op).value)
  {
    hide Stands, Grown, Edited, IsChild;
    Sizes(all, m);
    more, ok := all, true;
    match op {
      case Create(kind, value) => more := Make(all, kind, value, m);
      case LinkEnd(p, n) => if p < |all| && n < |all| { ok := LinkLast(all, p, n, m); }
      case Remove(p, at) => if p < |all| && at < |all| { ok := TakeOut(all, p, at, m); }
      case _ => if op.p < |all| { more := Place(all, op, m); }
    }
  }

  lemma Sizes(all: seq<DomNode>, m: Model)
    requires Stands(all, m)
    ensures |m.kids| == |m.kinds| == |all|
  {
  }

  /** Every sequence of calls, up to one that fails an assertion or links a child twice: all the
      pointers of all the nodes spell out the lists that the calls make as plain lists, every
      node with a parent is in that parent's list once, and no document has a parent. */
  method Run(ops: seq<Op>) returns (all: seq<DomNode>, ok: bool)
    ensures ok <==> StateAfter(ops).Some?
    ensures ok ==> Forest(Nodes(all)) && Represents(LinksOf(Nodes(all)), all, StateAfter(ops).value)
  {
    hide Step, Represents, ForestLinks;
    all, ok := [], true;
    Nothing();
    for i := 0 to |ops|
      invariant ok && StateAfter(ops[..i]).Some? && Stands(all, StateAfter(ops[..i]).value)
      invariant forall k | 0 <= k < |all| :: fresh(all[k])
    {
      assert ops[..i + 1][..i] == ops[..i];
      all, ok := Apply(all, ops[i], StateAfter(ops[..i]).value);
      if !ok {
        Stuck(ops, i + 1);
        return;
      }
    }
    assert ops[..|ops|] == ops;
  }

  lemma Nothing()
    ensures Stands([], Model([], []))
  {
  }

  lemma {:induction false} Stuck(ops: seq<Op>, i: nat)
    requires i <= |ops| && StateAfter(ops[..i]).None?
    ensures StateAfter(ops).None?
    decreases |ops|
  {
    if i == |ops| {
      assert ops[..i] == ops;
    } else {
      assert ops[..|ops| - 1][..i] == ops[..i];
      Stuck(ops[..|ops| - 1], i);
    }
  }
}
