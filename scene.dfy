/**
 * The scene graph of `script.js`: a `Node` has an array of children and an optional parent,
 * and `setParent` unlinks a node from its old parent and links it under a new one, changing
 * both parents' `children` arrays in place.
 */
module Scene {

  // ---------------------------------------------------------------------------------
  // The array operations `setParent` uses

  /** `s.indexOf(x)`: the first position holding `x`, or -1 when there is none. */
  function IndexOf<T(==)>(s: seq<T>, x: T): (r: int)
    ensures -1 <= r < |s|
    ensures r == -1 <==> x !in s
    ensures 0 <= r ==> s[r] == x && forall j :: 0 <= j < r ==> s[j] != x
  {
    if s == [] then -1
    else if s[0] == x then 0
    else
      var k := IndexOf(s[1..], x);
      if k == -1 then -1 else k + 1
  }

  /** `s.splice(i, 1)`: the array without position `i`. */
  function SpliceOne<T>(s: seq<T>, i: nat): seq<T>
    requires i < |s|
  {
    s[..i] + s[i + 1..]
  }

  /**
   * "Remove us from our parent": the children array after the `indexOf` and the `splice`.
   * It is one element shorter when `x` was there, and unchanged otherwise.
   */
  function Removed<T(==)>(s: seq<T>, x: T): (r: seq<T>)
    ensures x in s ==> |r| == |s| - 1
    ensures x !in s ==> r == s
  {
    var ndx := IndexOf(s, x);
    if ndx >= 0 then SpliceOne(s, ndx) else s
  }

  /** An independent definition: drop the first `x` met from the front, keep everything else in order. */
  function RemoveFirst<T(==)>(s: seq<T>, x: T): seq<T>
  {
    if s == [] then []
    else if s[0] == x then s[1..]
    else [s[0]] + RemoveFirst(s[1..], x)
  }

  /** No element of the array appears twice. */
  ghost predicate NoDuplicates<T>(s: seq<T>)
  {
    forall i, j :: 0 <= i < j < |s| ==> s[i] != s[j]
  }

  /** Past a first element that is not `x`, the removal happens in the rest. */
  lemma RemovedCons<T>(s: seq<T>, x: T)
    requires s != [] && s[0] != x
    ensures Removed(s, x) == [s[0]] + Removed(s[1..], x)
  {
    var t := s[1..];
    var k := IndexOf(t, x);
    assert IndexOf(s, x) == if k == -1 then -1 else k + 1;
    if k >= 0 {
      calc {
        Removed(s, x);
        s[..k + 1] + s[k + 2..];
        { assert s[..k + 1] == [s[0]] + t[..k]; assert s[k + 2..] == t[k + 1..]; }
        [s[0]] + (t[..k] + t[k + 1..]);
        [s[0]] + Removed(t, x);
      }
    }
  }

  /** The `indexOf`-and-`splice` removal takes out exactly the first occurrence and keeps the order. */
  lemma {:induction false} RemovedIsRemoveFirst<T>(s: seq<T>, x: T)
    ensures Removed(s, x) == RemoveFirst(s, x)
  {
    if s != [] && s[0] != x {
      RemovedIsRemoveFirst(s[1..], x);
      RemovedCons(s, x);
    }
  }

  /** The removal takes one `x` out of the multiset of elements when there is one. */
  lemma RemovedElements<T>(s: seq<T>, x: T)
    ensures x in s ==> multiset(Removed(s, x)) == multiset(s) - multiset{x}
  {
    if x in s {
      var ndx := IndexOf(s, x);
      assert s == s[..ndx] + [x] + s[ndx + 1..];
      calc {
        multiset(s);
        multiset(s[..ndx]) + multiset{x} + multiset(s[ndx + 1..]);
        multiset(Removed(s, x)) + multiset{x};
      }
    }
  }

  /** In an array without duplicates, the removal keeps every element but `x`, and no duplicates. */
  lemma RemovedMembers<T>(s: seq<T>, x: T)
    requires NoDuplicates(s)
    ensures forall y :: y in Removed(s, x) <==> y in s && y != x
    ensures NoDuplicates(Removed(s, x))
  {
    var ndx := IndexOf(s, x);
    if ndx >= 0 {
      var r := Removed(s, x);
      assert forall k :: 0 <= k < |r| ==> r[k] == if k < ndx then s[k] else s[k + 1];
      forall y | y in s && y != x
        ensures y in r
      {
        var k :| 0 <= k < |s| && s[k] == y;
        assert k != ndx;
        if k < ndx { assert r[k] == y; } else { assert r[k - 1] == y; }
      }
    }
  }

  /** Re-parenting under the same parent: the child count stays, the node ends up last, no child is lost or gained. */
  lemma MovedToEnd<T>(s: seq<T>, x: T)
    requires x in s
    ensures |Removed(s, x) + [x]| == |s|
    ensures (Removed(s, x) + [x])[|s| - 1] == x
    ensures multiset(Removed(s, x) + [x]) == multiset(s)
  {
    RemovedElements(s, x);
  }

  // ---------------------------------------------------------------------------------
  // Nodes

  /** `Node`; its world and local matrices are not part of this model. */
  class Node {
    var children: seq<Node>
    /** `this.parent`; `null` stands for `undefined`, which the constructor leaves it as. */
    var parent: Node?

    /** `new Node()`. */
    constructor()
      ensures children == [] && parent == null
    {
      children := [];
      parent := null;
    }

    /** `node.setParent(p)`, with `undefined` as `null`. */
    method SetParent(p: Node?)
      modifies this, ({parent, p} - {null})`children
      ensures Relinked(this, old(parent), p)
    {
      // remove us from our parent
      if parent != null {
        var ndx := IndexOf(parent.children, this);
        if ndx >= 0 {
          parent.children := SpliceOne(parent.children, ndx);
        }
      }
      // add us to our new parent
      if p != null {
        p.children := p.children + [this];
      }
      parent := p;
    }
  }

  /**
   * What `node.setParent(p)` does to the graph, `oldParent` being `node.parent` before:
   * `node` hangs under `p`; the old parent has lost the first occurrence of `node`;
   * the new parent has gained `node` at the end, after that removal when it is the old parent too;
   * `node`'s own children change only when it is itself one of the two parents.
   */
  twostate predicate Relinked(node: Node, oldParent: Node?, p: Node?)
    reads node, oldParent, p
  {
    && node.parent == p
    && (oldParent != null && oldParent != p ==>
          oldParent.children == Removed(old(oldParent.children), node))
    && (p != null ==>
          p.children == (if p == oldParent then Removed(old(p.children), node) else old(p.children)) + [node])
    && (node != oldParent && node != p ==> node.children == old(node.children))
  }

  /**
   * A consistent graph over `nodes`: every node with a parent is among its parent's children,
   * every child points back to the node holding it, and no array holds a child twice.
   */
  ghost predicate Linked(nodes: set<Node>)
    reads nodes
  {
    forall n :: n in nodes ==>
      && (n.parent != null ==> n.parent in nodes && n in n.parent.children)
      && (forall c :: c in n.children ==> c in nodes && c.parent == n)
      && NoDuplicates(n.children)
  }

  /**
   * `setParent` keeps a consistent graph consistent. `node` and `p` are marked `new` only so
   * that no allocation check is made for them: they are members of `nodes`, which is old.
   */
  twostate lemma SetParentKeepsLinked(nodes: set<Node>, new node: Node, new p: Node?)
    requires old(Linked(nodes)) && node in nodes && (p == null || p in nodes)
    requires Relinked(node, old(node.parent), p)
    requires forall n :: n in nodes && n != node ==> n.parent == old(n.parent)
    requires forall n :: n in nodes && n != node && n != p && n != old(node.parent) ==> n.children == old(n.children)
    ensures Linked(nodes)
  {
    var q := old(node.parent);
    if q != null {
      RemovedMembers(old(q.children), node);
    }
    if p != null && p == q {
      RemovedMembers(old(p.children), node);
    }
    forall n | n in nodes
      ensures n.parent != null ==> n.parent in nodes && n in n.parent.children
      ensures forall c :: c in n.children ==> c in nodes && c.parent == n
      ensures NoDuplicates(n.children)
    {
      if n == p {
        var before := if p == q then Removed(old(p.children), node) else old(p.children);
        assert node !in before;
        assert forall c :: c in before ==> c in nodes && c.parent == n;
      }
    }
  }

  /**
   * A client that re-parents one node of a linked graph: `setParent`'s own frame gives the
   * lemma's requirements, so the graph stays linked, and stays linked over any number of calls.
   */
  method Reparent(nodes: set<Node>, node: Node, p: Node?)
    requires Linked(nodes) && node in nodes && (p == null || p in nodes)
    modifies nodes
    ensures Linked(nodes)
  {
    node.SetParent(p);
    SetParentKeepsLinked(nodes, node, p);
  }
}
