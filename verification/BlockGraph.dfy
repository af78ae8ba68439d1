/**
 The block graph (`block.c`): nodes and the edges between them.  An edge (a `BdrvChild`) belongs to a
 parent, which is a node or some other user of the block layer, and points to a node, or to nothing
 while it is detached.  The lists of children and parents of a node are read off the edges; their order
 is left open.
 */
module BlockGraph {
  import opened Options

  type Node = nat
  type EdgeId = nat

  datatype Perm = ConsistentRead | Write | WriteUnchanged | Resize

  /** The role bits that decide where an edge is hooked in at its parent. */
  datatype Role = Role(filtered: bool, cow: bool, primary: bool)

  datatype Edge = Edge(bs: Option<Node>, parent: Option<Node>, perm: set<Perm>, shared: set<Perm>,
                       role: Role, frozen: bool, stayAtNode: bool)

  type Edges = map<EdgeId, Edge>

  /** The edges below `n`. */
  function Children(es: Edges, n: Node): set<EdgeId> {
    set c | c in es && es[c].parent == Some(n) && es[c].bs.Some?
  }

  /** The edges that point to `n`. */
  function Parents(es: Edges, n: Node): set<EdgeId> {
    set c | c in es && es[c].bs == Some(n)
  }

  predicate Joins(es: Edges, c: EdgeId, a: Node, b: Node) {
    c in es && es[c].parent == Some(a) && es[c].bs == Some(b)
  }

  ghost predicate Links(es: Edges, a: Node, b: Node) {
    exists c :: Joins(es, c, a, b)
  }

  ghost predicate IsPath(es: Edges, p: seq<Node>) {
    p != [] && forall i :: 0 <= i < |p| - 1 ==> Links(es, p[i], p[i + 1])
  }

  ghost predicate PathFromTo(es: Edges, p: seq<Node>, a: Node, b: Node) {
    IsPath(es, p) && p[0] == a && p[|p| - 1] == b
  }

  ghost predicate Reach(es: Edges, a: Node, b: Node) {
    exists p :: PathFromTo(es, p, a, b)
  }

  ghost predicate Acyclic(es: Edges) {
    forall a, b :: Links(es, a, b) ==> !Reach(es, b, a)
  }

  // ---------------------------------------------------------------- paths

  lemma {:induction false} ReachSelf(es: Edges, a: Node)
    ensures Reach(es, a, a)
  {
    assert PathFromTo(es, [a], a, a);
  }

  lemma {:induction false} ReachStep(es: Edges, a: Node, b: Node, c: Node)
    requires Links(es, a, b) && Reach(es, b, c)
    ensures Reach(es, a, c)
  {
    var p :| PathFromTo(es, p, b, c);
    var q := [a] + p;
    forall i | 0 <= i < |q| - 1
      ensures Links(es, q[i], q[i + 1])
    {
      if i > 0 {
        assert q[i] == p[i - 1] && q[i + 1] == p[i];
      }
    }
    assert PathFromTo(es, q, a, c);
  }

  lemma {:induction false} PathTail(es: Edges, p: seq<Node>, a: Node, b: Node)
    requires PathFromTo(es, p, a, b) && |p| > 1
    ensures PathFromTo(es, p[1..], p[1], b) && Links(es, a, p[1])
  {
    var q := p[1..];
    assert forall i :: 0 <= i < |q| ==> q[i] == p[i + 1];
    forall i | 0 <= i < |q| - 1
      ensures Links(es, q[i], q[i + 1])
    {
      assert Links(es, p[i + 1], p[i + 2]);
    }
    assert Links(es, p[0], p[1]);
  }

  lemma {:induction false} PathThen(es: Edges, p: seq<Node>, a: Node, b: Node, c: Node)
    requires PathFromTo(es, p, a, b) && Reach(es, b, c)
    ensures Reach(es, a, c)
    decreases |p|
  {
    if |p| > 1 {
      PathTail(es, p, a, b);
      PathThen(es, p[1..], p[1], b, c);
      ReachStep(es, a, p[1], c);
    }
  }

  lemma {:induction false} ReachTrans(es: Edges, a: Node, b: Node, c: Node)
    requires Reach(es, a, b) && Reach(es, b, c)
    ensures Reach(es, a, c)
  {
    var p :| PathFromTo(es, p, a, b);
    PathThen(es, p, a, b, c);
  }

  lemma {:induction false} ReachLink(es: Edges, a: Node, b: Node, c: Node)
    requires Reach(es, a, b) && Links(es, b, c)
    ensures Reach(es, a, c)
  {
    ReachSelf(es, c);
    ReachStep(es, b, c, c);
    ReachTrans(es, a, b, c);
  }

  /** A set that contains `a` and with every node its children contains everything reachable from `a`. */
  lemma {:induction false} PathStays(es: Edges, p: seq<Node>, a: Node, b: Node, s: set<Node>)
    requires PathFromTo(es, p, a, b) && a in s
    requires forall x, y :: x in s && Links(es, x, y) ==> y in s
    ensures b in s
    decreases |p|
  {
    if |p| > 1 {
      PathTail(es, p, a, b);
      PathStays(es, p[1..], p[1], b, s);
    }
  }

  // ---------------------------------------------------------------- new edges and cycles

  /** A path that uses one new link is a path without it, or leads to the link and on from it. */
  lemma {:induction false} PathWithLink(es: Edges, es': Edges, from: Node, to: Node, p: seq<Node>, a: Node, b: Node)
    requires forall x, y :: Links(es', x, y) ==> Links(es, x, y) || (x == from && y == to)
    requires PathFromTo(es', p, a, b)
    ensures Reach(es, a, b) || (Reach(es, a, from) && Reach(es, to, b))
    decreases |p|
  {
    if |p| == 1 {
      ReachSelf(es, a);
    } else {
      PathTail(es', p, a, b);
      PathWithLink(es, es', from, to, p[1..], p[1], b);
      if Links(es, a, p[1]) {
        if Reach(es, p[1], b) {
          ReachStep(es, a, p[1], b);
        } else {
          ReachStep(es, a, p[1], from);
        }
      } else {
        ReachSelf(es, from);
      }
    }
  }

  /** A graph gains no cycle by one new link unless its lower end already reaches its upper end. */
  lemma {:induction false} NoNewCycle(es: Edges, es': Edges, from: Node, to: Node)
    requires Acyclic(es) && !Reach(es, to, from)
    requires forall x, y :: Links(es', x, y) ==> Links(es, x, y) || (x == from && y == to)
    ensures Acyclic(es')
  {
    forall a, b | Links(es', a, b)
      ensures !Reach(es', b, a)
    {
      if Reach(es', b, a) {
        var p :| PathFromTo(es', p, b, a);
        PathWithLink(es, es', from, to, p, b, a);
        if Links(es, a, b) {
          ReachLink(es, to, a, b);
          ReachTrans(es, to, b, from);
        }
      }
    }
  }

  /** A path to `end` survives any change of the links below `end`. */
  lemma {:induction false} PathKept(es: Edges, es': Edges, end: Node, p: seq<Node>, a: Node)
    requires forall x, y :: Links(es, x, y) && x != end ==> Links(es', x, y)
    requires PathFromTo(es, p, a, end)
    ensures Reach(es', a, end)
    decreases |p|
  {
    if a == end {
      ReachSelf(es', a);
    } else {
      PathTail(es, p, a, end);
      PathKept(es, es', end, p[1..], p[1]);
      ReachStep(es', a, p[1], end);
    }
  }

  lemma {:induction false} PointedElsewhere(es: Edges, c: EdgeId, to: Node)
    requires c in es && es[c].parent.Some?
    ensures var es', from := es[c := es[c].(bs := Some(to))], es[c].parent.value;
            && (forall x, y :: Links(es', x, y) ==> Links(es, x, y) || (x == from && y == to))
            && (forall x, y :: Links(es, x, y) && x != from ==> Links(es', x, y))
            && Links(es', from, to)
  {
    var es', from := es[c := es[c].(bs := Some(to))], es[c].parent.value;
    assert Joins(es', c, from, to);
    forall x, y | Links(es', x, y)
      ensures Links(es, x, y) || (x == from && y == to)
    {
      var d :| Joins(es', d, x, y);
      if d != c {
        assert Joins(es, d, x, y);
      }
    }
    forall x, y | Links(es, x, y) && x != from
      ensures Links(es', x, y)
    {
      var d :| Joins(es, d, x, y);
      assert Joins(es', d, x, y);
    }
  }

  /** Pointing an edge of a node to `to` keeps the graph acyclic if and only if that node is not below `to`. */
  lemma {:induction false} PointAcyclic(es: Edges, c: EdgeId, to: Node)
    requires Acyclic(es) && c in es && es[c].parent.Some?
    ensures Acyclic(es[c := es[c].(bs := Some(to))]) <==> !Reach(es, to, es[c].parent.value)
  {
    var es', from := es[c := es[c].(bs := Some(to))], es[c].parent.value;
    PointedElsewhere(es, c, to);
    if Reach(es, to, from) {
      var p :| PathFromTo(es, p, to, from);
      PathKept(es, es', from, p, to);
    } else {
      NoNewCycle(es, es', from, to);
    }
  }

  /** Edges of other users and detached edges take part in no cycle. */
  lemma {:induction false} RootAcyclic(es: Edges, es': Edges)
    requires Acyclic(es) && forall x, y :: Links(es', x, y) ==> Links(es, x, y)
    ensures Acyclic(es')
  {
    forall a, b | Links(es', a, b)
      ensures !Reach(es', b, a)
    {
      if Reach(es', b, a) {
        var p :| PathFromTo(es', p, b, a);
        SubPath(es, es', p, b, a);
      }
    }
  }

  lemma {:induction false} SubPath(es: Edges, es': Edges, p: seq<Node>, a: Node, b: Node)
    requires forall x, y :: Links(es', x, y) ==> Links(es, x, y)
    requires PathFromTo(es', p, a, b)
    ensures Reach(es, a, b)
    decreases |p|
  {
    if |p| == 1 {
      ReachSelf(es, a);
    } else {
      PathTail(es', p, a, b);
      SubPath(es, es', p[1..], p[1], b);
      ReachStep(es, a, p[1], b);
    }
  }
}
