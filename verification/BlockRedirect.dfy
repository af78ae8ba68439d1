/**
 Pointing the parents of one node to another (`bdrv_replace_node_noperm`).  The loop decides edge by edge
 while it changes the graph; the edges it moves are nevertheless those that could be moved at the start.
 */
module BlockRedirect {
  import opened Options
  import opened BlockGraph
  import opened BlockWalk

  /** The edges `cs` point to `to`. */
  function Redirect(es: Edges, cs: set<EdgeId>, to: Node): Edges {
    map c | c in es :: if c in cs then es[c].(bs := Some(to)) else es[c]
  }

  /** The parents of `from` that may be pointed to `to`. */
  ghost function Movable(es: Edges, from: Node, to: Node): set<EdgeId> {
    set c | c in Parents(es, from) && !es[c].stayAtNode && !Under(es, c, to)
  }

  /** `es'` is `es` except for edges of nodes that are not below `to`. */
  ghost predicate SameBelow(es: Edges, es': Edges, to: Node) {
    && es'.Keys == es.Keys
    && (forall c :: c in es ==> es'[c].parent == es[c].parent && (es'[c].bs.Some? <==> es[c].bs.Some?))
    && (forall c :: c in es && es[c].parent.Some? && Reach(es, to, es[c].parent.value) ==> es'[c] == es[c])
  }

  lemma {:induction false} LinkBelow(es: Edges, es': Edges, to: Node, a: Node, b: Node)
    requires SameBelow(es, es', to) && Reach(es, to, a)
    ensures Links(es', a, b) <==> Links(es, a, b)
  {
    if Links(es, a, b) {
      var c :| Joins(es, c, a, b);
      assert Joins(es', c, a, b);
    }
    if Links(es', a, b) {
      var c :| Joins(es', c, a, b);
      assert c in es && es[c].parent == Some(a);
      assert Joins(es, c, a, b);
    }
  }

  lemma {:induction false} PathBelow(es: Edges, es': Edges, to: Node, p: seq<Node>, a: Node, b: Node)
    requires SameBelow(es, es', to) && Reach(es, to, a)
    requires PathFromTo(es, p, a, b) || PathFromTo(es', p, a, b)
    ensures Reach(es, a, b) && Reach(es', a, b)
    decreases |p|
  {
    if |p| == 1 {
      ReachSelf(es, a);
      ReachSelf(es', a);
    } else {
      var next := p[1];
      if PathFromTo(es, p, a, b) {
        PathTail(es, p, a, b);
      } else {
        PathTail(es', p, a, b);
      }
      LinkBelow(es, es', to, a, next);
      ReachLink(es, to, a, next);
      PathBelow(es, es', to, p[1..], next, b);
      ReachStep(es, a, next, b);
      ReachStep(es', a, next, b);
    }
  }

  /** What lies below `to` stays the same. */
  lemma {:induction false} ReachBelow(es: Edges, es': Edges, to: Node, b: Node)
    requires SameBelow(es, es', to)
    ensures Reach(es', to, b) <==> Reach(es, to, b)
  {
    ReachSelf(es, to);
    if Reach(es, to, b) {
      var p :| PathFromTo(es, p, to, b);
      PathBelow(es, es', to, p, to, b);
    } else if Reach(es', to, b) {
      var p :| PathFromTo(es', p, to, b);
      PathBelow(es, es', to, p, to, b);
    }
  }

  lemma {:induction false} RedirectBelow(es: Edges, from: Node, to: Node, cs: set<EdgeId>)
    requires cs <= Movable(es, from, to)
    ensures SameBelow(es, Redirect(es, cs, to), to)
  {
    var es' := Redirect(es, cs, to);
    assert forall c :: c in cs ==> !Under(es, c, to) && c in Parents(es, from);
  }

  /** Moving some of the movable edges changes the decision on no other edge. */
  lemma {:induction false} UnderSame(es: Edges, from: Node, to: Node, cs: set<EdgeId>, c: EdgeId)
    requires cs <= Movable(es, from, to) && c in es
    ensures Under(Redirect(es, cs, to), c, to) <==> Under(es, c, to)
  {
    var es' := Redirect(es, cs, to);
    RedirectBelow(es, from, to, cs);
    if es[c].parent.Some? {
      ReachBelow(es, es', to, es[c].parent.value);
    }
  }

  lemma {:induction false} RedirectMore(es: Edges, cs: set<EdgeId>, to: Node, c: EdgeId)
    requires c in es && c !in cs
    ensures var es' := Redirect(es, cs, to);
            es'[c] == es[c] && Redirect(es, cs + {c}, to) == es'[c := es'[c].(bs := Some(to))]
  {
  }

  /** One step of the loop keeps the graph acyclic, and an edge that lies below `to` would not. */
  lemma {:induction false} StepAcyclic(es: Edges, c: EdgeId, to: Node)
    requires Acyclic(es) && c in es && es[c].bs.Some?
    ensures Acyclic(es[c := es[c].(bs := Some(to))]) <==> !Under(es, c, to)
  {
    if es[c].parent.Some? {
      PointAcyclic(es, c, to);
    } else {
      var es' := es[c := es[c].(bs := Some(to))];
      forall x, y | Links(es', x, y)
        ensures Links(es, x, y)
      {
        var d :| Joins(es', d, x, y);
        assert Joins(es, d, x, y);
      }
      RootAcyclic(es, es');
    }
  }

  /** All edges moved: the graph is still acyclic. */
  lemma {:induction false} RedirectAcyclic(es: Edges, from: Node, to: Node, cs: set<EdgeId>)
    requires Acyclic(es) && cs <= Movable(es, from, to)
    ensures Acyclic(Redirect(es, cs, to))
    decreases cs
  {
    if cs == {} {
      assert Redirect(es, cs, to) == es;
    } else {
      var c :| c in cs;
      var rest := cs - {c};
      RedirectAcyclic(es, from, to, rest);
      assert rest + {c} == cs;
      RedirectMore(es, rest, to, c);
      UnderSame(es, from, to, rest, c);
      StepAcyclic(Redirect(es, rest, to), c, to);
    }
  }

  lemma {:induction false} DetachedEdge(es: Edges, id: EdgeId, e: Edge)
    requires id !in es && e.bs.None?
    ensures forall a, b :: Links(es[id := e], a, b) <==> Links(es, a, b)
  {
    var es' := es[id := e];
    forall a, b
      ensures Links(es', a, b) <==> Links(es, a, b)
    {
      if Links(es', a, b) {
        var c :| Joins(es', c, a, b);
        assert Joins(es, c, a, b);
      }
      if Links(es, a, b) {
        var c :| Joins(es, c, a, b);
        assert Joins(es', c, a, b);
      }
    }
  }

  lemma {:induction false} SameReach(es: Edges, es': Edges, a: Node, b: Node)
    requires forall x, y :: Links(es', x, y) <==> Links(es, x, y)
    ensures Reach(es', a, b) <==> Reach(es, a, b)
  {
    if Reach(es', a, b) {
      var p :| PathFromTo(es', p, a, b);
      SubPath(es, es', p, a, b);
    }
    if Reach(es, a, b) {
      var p :| PathFromTo(es, p, a, b);
      SubPath(es', es, p, a, b);
    }
  }

  /** A new edge closes a cycle if and only if its parent can be reached from its lower end. */
  lemma {:induction false} AttachAcyclic(es: Edges, id: EdgeId, e: Edge, bs: Node)
    requires Acyclic(es) && id !in es && e.bs == Some(bs) && e.parent.Some?
    ensures Acyclic(es[id := e]) <==> !Reach(es, bs, e.parent.value)
  {
    var es0 := es[id := e.(bs := None)];
    DetachedEdge(es, id, e.(bs := None));
    RootAcyclic(es, es0);
    SameReach(es, es0, bs, e.parent.value);
    PointAcyclic(es0, id, bs);
    assert es0[id := es0[id].(bs := Some(bs))] == es[id := e];
  }

  /** Taking an edge off, or freeing one, closes no cycle. */
  lemma {:induction false} LessAcyclic(es: Edges, es': Edges)
    requires Acyclic(es)
    requires forall c :: c in es' && es'[c].bs.Some? ==>
      c in es && es'[c].parent == es[c].parent && es'[c].bs == es[c].bs
    ensures Acyclic(es')
  {
    forall a, b | Links(es', a, b)
      ensures Links(es, a, b)
    {
      var c :| Joins(es', c, a, b);
      assert Joins(es, c, a, b);
    }
    RootAcyclic(es, es');
  }

  lemma {:induction false} RedirectNone(es: Edges, to: Node)
    ensures Redirect(es, {}, to) == es
  {
  }

  lemma {:induction false} MovableParents(es: Edges, from: Node, to: Node)
    ensures Movable(es, from, to) <= Parents(es, from)
  {
  }
}
