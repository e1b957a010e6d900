/**
  Whether the nodes of a document form a tree.  LinkEndChild takes any node without a parent,
  so it can put a node below itself; nothing else can.
 */
module XmlAncestry {
  import opened Basics
  import opened XmlNode

  predicate Edge(m: Model, x: nat, y: nat) { x < |m.kids| && y in m.kids[x] }

  /** From each node to one of its children. */
  ghost predicate Descent(m: Model, path: seq<nat>) {
    path != [] && forall i | 0 <= i < |path| - 1 :: Edge(m, path[i], path[i + 1])
  }

  /** A descent from a to b, which may be one node. */
  ghost predicate Leads(m: Model, a: nat, b: nat, path: seq<nat>) {
    Descent(m, path) && path[0] == a && path[|path| - 1] == b
  }

  /** a is b or an ancestor of b. */
  ghost predicate Above(m: Model, a: nat, b: nat) { exists path :: Leads(m, a, b, path) }

  ghost predicate Circle(m: Model, path: seq<nat>) { |path| > 1 && Leads(m, path[0], path[0], path) }

  ghost predicate Acyclic(m: Model) { forall path :: !Circle(m, path) }

  /** Every edge of w is one of m or leads from p to n. */
  ghost predicate OneMore(m: Model, w: Model, p: nat, n: nat) {
    forall x, y | Edge(w, x, y) :: Edge(m, x, y) || (x == p && y == n)
  }

  lemma Joined(m: Model, a: nat, b: nat, c: nat, s: seq<nat>, t: seq<nat>)
    requires Leads(m, a, b, s) && Leads(m, b, c, t)
    ensures Leads(m, a, c, s + t[1..])
  {
    var path := s + t[1..];
    forall i | 0 <= i < |path| - 1 ensures Edge(m, path[i], path[i + 1]) {
      if i < |s| - 1 { assert Edge(m, s[i], s[i + 1]); } else { assert Edge(m, t[i - |s| + 1], t[i - |s| + 2]); }
    }
  }

  /** A descent in w is one in m, or passes the new edge: up to its first use it descends in m. */
  lemma {:induction false} FirstUse(m: Model, w: Model, p: nat, n: nat, path: seq<nat>)
    requires OneMore(m, w, p, n) && Descent(w, path)
    ensures Descent(m, path) || Above(m, path[0], p)
  {
    if |path| > 1 {
      assert Edge(w, path[0], path[1]);
      var rest := path[1..];
      assert Descent(w, rest) by {
        forall i | 0 <= i < |rest| - 1 ensures Edge(w, rest[i], rest[i + 1]) {
          assert Edge(w, path[i + 1], path[i + 1 + 1]);
        }
      }
      FirstUse(m, w, p, n, rest);
      if !Edge(m, path[0], path[1]) {
        assert Leads(m, p, p, [p]);
      } else if Descent(m, rest) {
        forall i | 0 <= i < |path| - 1 ensures Edge(m, path[i], path[i + 1]) {
          if i > 0 { assert Edge(m, rest[i - 1], rest[i - 1 + 1]); }
        }
      } else {
        var t :| Leads(m, rest[0], p, t);
        Joined(m, path[0], path[1], p, [path[0], path[1]], t);
      }
    }
  }

  /** And from its last use on. */
  lemma {:induction false} LastUse(m: Model, w: Model, p: nat, n: nat, path: seq<nat>)
    requires OneMore(m, w, p, n) && Descent(w, path)
    ensures Descent(m, path) || Above(m, n, path[|path| - 1])
  {
    var last := |path| - 1;
    if last > 0 {
      assert Edge(w, path[last - 1], path[last - 1 + 1]);
      var rest := path[..last];
      assert Descent(w, rest) by {
        forall i | 0 <= i < |rest| - 1 ensures Edge(w, rest[i], rest[i + 1]) { assert Edge(w, path[i], path[i + 1]); }
      }
      LastUse(m, w, p, n, rest);
      if !Edge(m, path[last - 1], path[last]) {
        assert Leads(m, n, n, [n]);
      } else if Descent(m, rest) {
        forall i | 0 <= i < |path| - 1 ensures Edge(m, path[i], path[i + 1]) {
          if i < last - 1 { assert Edge(m, rest[i], rest[i + 1]); }
        }
      } else {
        var t :| Leads(m, n, rest[last - 1], t);
        Joined(m, n, path[last - 1], path[last], t, [path[last - 1], path[last]]);
      }
    }
  }

  /** A new edge from p to n closes a circle only if n was above p. */
  lemma NoCircle(m: Model, w: Model, p: nat, n: nat)
    requires OneMore(m, w, p, n) && Acyclic(m) && !Above(m, n, p)
    ensures Acyclic(w)
  {
    forall path ensures !Circle(w, path) {
      if Circle(w, path) {
        FirstUse(m, w, p, n, path);
        LastUse(m, w, p, n, path);
        assert !Circle(m, path);
        var s :| Leads(m, n, path[0], s);
        var t :| Leads(m, path[0], p, t);
        Joined(m, n, path[0], p, s, t);
      }
    }
  }

  // ---- the operations ----

  lemma Fewer(m: Model, w: Model)
    requires Acyclic(m) && forall x, y | Edge(w, x, y) :: Edge(m, x, y)
    ensures Acyclic(w)
  {
    forall path ensures !Circle(w, path) {
      assert !Circle(m, path);
      if Descent(w, path) {
        forall i | 0 <= i < |path| - 1 ensures Edge(m, path[i], path[i + 1]) { assert Edge(w, path[i], path[i + 1]); }
      }
    }
  }

  /** A node without children is above itself only. */
  lemma Leaf(m: Model, n: nat, p: nat)
    requires n < |m.kids| && m.kids[n] == [] && n != p
    ensures !Above(m, n, p)
  {
    forall path ensures !Leads(m, n, p, path) {
      if |path| > 1 && path[0] == n { assert !Edge(m, path[0], path[0 + 1]); }
    }
  }

  lemma PlacedAcyclic(m: Model, p: nat, at: nat, kind: Kind, before: nat, after: nat)
    requires |m.kids| == |m.kinds| && before <= after <= 1 && Acyclic(m)
    ensures Acyclic(Placed(m, p, at, kind, before, after))
  {
    if p < |m.kids| {
      var w, n := Grown(m, kind), |m.kinds|;
      Fewer(m, w);
      Leaf(w, n, p);
      NoCircle(w, Placed(m, p, at, kind, before, after), p, n);
    }
  }

  /** The operation that puts a node below itself: LinkEndChild of the parent itself or of one
      of its ancestors. */
  ghost predicate LinksAncestor(m: Model, op: Op) {
    && op.LinkEnd? && op.p < |m.kids| && op.n < |m.kids|
    && op.n < |m.kinds| && m.kinds[op.n] != Document && Above(m, op.n, op.p)
  }

  lemma CircleClosed(m: Model, p: nat, n: nat)
    requires p < |m.kids| && Above(m, n, p)
    ensures !Acyclic(Edited(m, p, |m.kids[p]|, |m.kids[p]|, [n]))
  {
    var w := Edited(m, p, |m.kids[p]|, |m.kids[p]|, [n]);
    var s :| Leads(m, n, p, s);
    var path := [p] + s;
    assert Edge(w, p, n) by { assert w.kids[p][|m.kids[p]|] == n; }
    forall i | 0 <= i < |path| - 1 ensures Edge(w, path[i], path[i + 1]) {
      if i > 0 {
        assert Edge(m, s[i - 1], s[i - 1 + 1]);
        Kept(m, p, n, s[i - 1], s[i]);
      }
    }
    assert Circle(w, path);
  }

  lemma Kept(m: Model, p: nat, n: nat, x: nat, y: nat)
    requires p < |m.kids| && Edge(m, x, y)
    ensures Edge(Edited(m, p, |m.kids[p]|, |m.kids[p]|, [n]), x, y)
  {
    if x == p {
      var i :| 0 <= i < |m.kids[p]| && m.kids[p][i] == y;
      assert Edited(m, p, |m.kids[p]|, |m.kids[p]|, [n]).kids[p][i] == y;
    }
  }

  lemma LinkedAcyclic(m: Model, p: nat, n: nat)
    requires p < |m.kids| && Acyclic(m)
    ensures Acyclic(Edited(m, p, |m.kids[p]|, |m.kids[p]|, [n])) <==> !Above(m, n, p)
  {
    if Above(m, n, p) {
      CircleClosed(m, p, n);
    } else {
      NoCircle(m, Edited(m, p, |m.kids[p]|, |m.kids[p]|, [n]), p, n);
    }
  }

  /** One operation on a tree leaves a tree if and only if it does not link an ancestor. */
  lemma StepAcyclic(m: Model, op: Op)
    requires |m.kids| == |m.kinds| && Acyclic(m) && Step(m, op).Some?
    ensures Acyclic(Step(m, op).value) <==> !LinksAncestor(m, op)
  {
    hide Acyclic, Above, Placed;
    match op {
      case LinkEnd(p, n) => if p < |m.kids| { LinkedAcyclic(m, p, n); }
      case InsertBefore(p, at, kind, _) => PlacedAcyclic(m, p, at, kind, 0, 0);
      case InsertAfter(p, at, kind, _) => PlacedAcyclic(m, p, at, kind, 1, 1);
      case Replace(p, at, kind, _) => PlacedAcyclic(m, p, at, kind, 0, 1);
      case Create(_, _) => Fewer(m, Step(m, op).value);
      case Remove(_, _) => Fewer(m, Step(m, op).value);
    }
  }

  // ---- runs ----

  ghost predicate LinksAncestorAt(ops: seq<Op>, i: nat) {
    i < |ops| && StateAfter(ops[..i]).Some? && LinksAncestor(StateAfter(ops[..i]).value, ops[i])
  }

  ghost predicate TreeAt(ops: seq<Op>, j: nat) {
    j <= |ops| ==> StateAfter(ops[..j]).Some? && Acyclic(StateAfter(ops[..j]).value)
  }

  /** Along a run the nodes form trees all the time if and only if no LinkEndChild links the
      parent itself or one of its ancestors. */
  lemma {:induction false} StaysTree(ops: seq<Op>)
    requires StateAfter(ops).Some?
    ensures (forall j: nat :: TreeAt(ops, j)) <==> forall i: nat :: !LinksAncestorAt(ops, i)
  {
    hide Acyclic, LinksAncestor, Step;
    if ops == [] {
      assert Acyclic(Model([], [])) by { Nobody(); }
      forall j: nat ensures TreeAt(ops, j) { assert j == 0 ==> ops[..j] == ops; }
    } else {
      var last := |ops| - 1;
      var before := ops[..last];
      StaysTree(before);
      forall i: nat ensures i <= last ==> (TreeAt(ops, i) <==> TreeAt(before, i)) {
        if i <= last { assert before[..i] == ops[..i]; }
      }
      forall i: nat
        ensures LinksAncestorAt(ops, i) <==> LinksAncestorAt(before, i) || (i == last && LinksAncestorAt(ops, last))
      {
        if i < last { assert before[..i] == ops[..i]; }
      }
      assert before[..last] == before && ops[..|ops|] == ops;
      if forall j: nat :: TreeAt(before, j) {
        assert TreeAt(before, last);
        StepAcyclic(StateAfter(before).value, ops[last]);
        assert TreeAt(ops, |ops|) <==> !LinksAncestorAt(ops, last);
      } else {
        var j: nat :| !TreeAt(before, j);
        assert !TreeAt(ops, j);
      }
    }
  }

  lemma Nobody()
    ensures Acyclic(Model([], []))
  {
    forall path ensures !Circle(Model([], []), path) {
      if |path| > 1 { assert !Edge(Model([], []), path[0], path[0 + 1]); }
    }
  }

  /** The shortest such run: a node linked to itself. */
  lemma SelfLinked(value: string)
    ensures var m := StateAfter([Create(Element, value), LinkEnd(0, 0)]);
            m.Some? && m.value.kids == [[0]] && Circle(m.value, [0, 0])
  {
    assert [Create(Element, value), LinkEnd(0, 0)][..1] == [Create(Element, value)];
    assert [Create(Element, value)][..0] == [];
    var m := Model([Element], [[]]);
    assert StateAfter([Create(Element, value)]) == Step(Model([], []), Create(Element, value));
    assert Grown(Model([], []), Element) == m;
    assert !IsChild(m, 0);
    var w := Step(m, LinkEnd(0, 0)).value;
    assert w.kids[0] == [0];
    assert Edge(w, [0, 0][0], [0, 0][0 + 1]);
  }
}
