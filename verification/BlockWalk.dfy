/**
 The three walks over the block graph: the search for a node below another one
 (`bdrv_recurse_has_child`), the breadth-first search that decides whether an edge may be pointed
 elsewhere (`should_update_child`) and the depth-first search that lists nodes for the permission update
 (`bdrv_topological_dfs`).
 */
module BlockWalk {
  import opened BlockGraph

  function Nodes(es: Edges): set<Node> {
    (set c | c in es && es[c].bs.Some? :: es[c].bs.value)
        + (set c | c in es && es[c].parent.Some? :: es[c].parent.value)
  }

  lemma {:induction false} LinkNodes(es: Edges, a: Node, b: Node)
    requires Links(es, a, b)
    ensures a in Nodes(es) && b in Nodes(es)
  {
    var c :| Joins(es, c, a, b);
  }

  lemma {:induction false} ChildLinks(es: Edges, n: Node, c: EdgeId)
    requires c in Children(es, n)
    ensures Joins(es, c, n, es[c].bs.value) && Links(es, n, es[c].bs.value)
  {
    assert Joins(es, c, n, es[c].bs.value);
  }

  // ---------------------------------------------------------------- bdrv_recurse_has_child

  ghost function Below(es: Edges, a: Node): set<Node> {
    set n | n in Nodes(es) + {a} && Reach(es, a, n)
  }

  lemma {:induction false} BelowShrinks(es: Edges, a: Node, b: Node)
    requires Acyclic(es) && Links(es, a, b)
    ensures Below(es, b) < Below(es, a) && |Below(es, b)| < |Below(es, a)|
  {
    LinkNodes(es, a, b);
    forall n | n in Below(es, b)
      ensures n in Below(es, a)
    {
      ReachStep(es, a, b, n);
    }
    ReachSelf(es, a);
    assert a in Below(es, a) && a !in Below(es, b);
    Smaller(Below(es, b), Below(es, a));
  }

  lemma {:induction false} Smaller<T>(a: set<T>, b: set<T>)
    requires a < b
    ensures |a| < |b|
  {
    var rest := b - a;
    assert b == a + rest;
    assert rest != {};
  }

  /** Whether `child` is `bs` or lies below it; the graph has no cycle, so the recursion ends. */
  method RecurseHasChild(es: Edges, bs: Node, child: Node) returns (found: bool)
    requires Acyclic(es)
    ensures found <==> Reach(es, bs, child)
    decreases |Below(es, bs)|
  {
    if bs == child {
      ReachSelf(es, bs);
      return true;
    }
    var todo := Children(es, bs);
    while todo != {}
      invariant todo <= Children(es, bs)
      invariant forall c :: c in Children(es, bs) - todo ==> !Reach(es, es[c].bs.value, child)
      decreases |todo|
    {
      var c :| c in todo;
      ChildLinks(es, bs, c);
      BelowShrinks(es, bs, es[c].bs.value);
      var below := RecurseHasChild(es, es[c].bs.value, child);
      if below {
        ReachStep(es, bs, es[c].bs.value, child);
        return true;
      }
      todo := todo - {c};
    }
    NotBelow(es, bs, child);
    found := false;
  }

  lemma {:induction false} NotBelow(es: Edges, bs: Node, child: Node)
    requires bs != child && forall c :: c in Children(es, bs) ==> !Reach(es, es[c].bs.value, child)
    ensures !Reach(es, bs, child)
  {
    if Reach(es, bs, child) {
      var p :| PathFromTo(es, p, bs, child);
      PathTail(es, p, bs, child);
    }
  }

  // ---------------------------------------------------------------- should_update_child

  /** Edge `c` lies below `to`. */
  ghost predicate Under(es: Edges, c: EdgeId, to: Node) {
    c in es && es[c].parent.Some? && es[c].bs.Some? && Reach(es, to, es[c].parent.value)
  }

  /** Every child of a node in `s` is in `s`. */
  ghost predicate Closed(es: Edges, s: set<Node>) {
    forall x, y :: x in s && Links(es, x, y) ==> y in s
  }

  lemma {:induction false} ClosedHasAll(es: Edges, s: set<Node>, a: Node, b: Node)
    requires Closed(es, s) && a in s && Reach(es, a, b)
    ensures b in s
  {
    var p :| PathFromTo(es, p, a, b);
    PathStays(es, p, a, b, s);
  }

  /** What the outer loop of the search knows: `found` lies below `to`, and all children of visited nodes were found. */
  ghost predicate Searching(es: Edges, c: EdgeId, to: Node, queue: seq<Node>, found: set<Node>, ret: bool) {
    && to in found && (forall n :: n in queue ==> n in found)
    && (forall n :: n in found ==> Reach(es, to, n))
    && (!ret ==> Under(es, c, to))
    && (ret ==> forall n, d :: n in found && n !in queue && d in Children(es, n) ==> d != c && es[d].bs.value in found)
  }

  lemma {:induction false} SearchDone(es: Edges, c: EdgeId, to: Node, found: set<Node>)
    requires Searching(es, c, to, [], found, true)
    ensures !Under(es, c, to)
  {
    forall x, y | x in found && Links(es, x, y)
      ensures y in found
    {
      var d :| Joins(es, d, x, y);
      assert d in Children(es, x);
    }
    if Under(es, c, to) {
      assert c in Children(es, es[c].parent.value);
      ClosedHasAll(es, found, to, es[c].parent.value);
    }
  }

  /** The inner loop: the children of `v` are put into the queue until `c` turns up. */
  method VisitChildren(es: Edges, c: EdgeId, to: Node, v: Node, queue: seq<Node>, found: set<Node>, was: bool)
    returns (queue': seq<Node>, found': set<Node>, ret: bool)
    requires Searching(es, c, to, [v] + queue, found, was) && found <= Nodes(es) + {to}
    ensures Searching(es, c, to, queue', found', ret) && found <= found' <= Nodes(es) + {to}
    ensures found' == found ==> queue' == queue
  {
    queue', found', ret := queue, found, was;
    assert ([v] + queue)[0] == v;
    assert forall n :: n in queue ==> n in [v] + queue;
    var todo := Children(es, v);
    while todo != {}
      invariant todo <= Children(es, v) && found <= found' <= Nodes(es) + {to} && (found' == found ==> queue' == queue)
      invariant v in found' && to in found' && (forall n :: n in queue' ==> n in found')
      invariant forall n :: n in found' ==> Reach(es, to, n)
      invariant !ret ==> Under(es, c, to)
      invariant ret ==> forall n, d :: n in found' && n != v && n !in queue' && d in Children(es, n) ==>
        d != c && es[d].bs.value in found'
      invariant ret ==> forall d :: d in Children(es, v) - todo ==> d != c && es[d].bs.value in found'
      decreases |todo|
    {
      var c2 :| c2 in todo;
      todo := todo - {c2};
      ChildLinks(es, v, c2);
      if c2 == c {
        return queue', found', false;
      }
      var n := es[c2].bs.value;
      if n !in found' {
        ReachLink(es, to, v, n);
        LinkNodes(es, v, n);
        queue' := queue' + [n];
        found' := found' + {n};
      }
    }
  }

  /** An edge may be pointed to `to` unless it has to stay or lies below `to`. */
  method ShouldUpdateChild(es: Edges, c: EdgeId, to: Node) returns (ret: bool)
    requires c in es
    ensures ret <==> !es[c].stayAtNode && !Under(es, c, to)
  {
    if es[c].stayAtNode {
      return false;
    }
    hide Nodes, Children;
    ret := true;
    var found := {to};
    var queue := [to];
    ReachSelf(es, to);
    while queue != []
      invariant Searching(es, c, to, queue, found, ret) && found <= Nodes(es) + {to}
      decreases Nodes(es) + {to} - found, |queue|
    {
      var v := queue[0];
      assert [v] + queue[1..] == queue;
      queue, found, ret := VisitChildren(es, c, to, v, queue[1..], found, ret);
    }
    if ret {
      SearchDone(es, c, to, found);
    }
  }

  // ---------------------------------------------------------------- bdrv_topological_dfs

  ghost predicate NoDuplicates(list: seq<Node>) {
    forall i, j :: 0 <= i < j < |list| ==> list[i] != list[j]
  }

  /** Parents come before their children. */
  ghost predicate Sorted(es: Edges, list: seq<Node>) {
    forall i, j :: 0 <= i < |list| && 0 <= j < |list| && Links(es, list[i], list[j]) ==> i < j
  }

  /** The list holds the whole subtree of each of its nodes. */
  ghost predicate Whole(es: Edges, list: seq<Node>) {
    forall x, y :: x in list && Links(es, x, y) ==> y in list
  }

  ghost predicate Topological(es: Edges, list: seq<Node>) {
    NoDuplicates(list) && Sorted(es, list) && Whole(es, list)
  }

  lemma {:induction false} Prepend(es: Edges, list: seq<Node>, bs: Node)
    requires Topological(es, list) && bs !in list && !Links(es, bs, bs)
    requires forall y :: Links(es, bs, y) ==> y in list
    ensures Topological(es, [bs] + list)
  {
    var all := [bs] + list;
    assert forall i :: 0 < i < |all| ==> all[i] == list[i - 1];
    forall i, j | 0 <= i < |all| && 0 <= j < |all| && Links(es, all[i], all[j])
      ensures i < j
    {
      if i > 0 {
        assert all[i] in list;
        assert all[j] in list;
        assert j > 0;
      }
    }
    forall x, y | x in all && Links(es, x, y)
      ensures y in all
    {
      assert y in list;
    }
  }

  /** The nodes found but not yet listed are those on the way down to `bs`. */
  ghost predicate OnTheWay(es: Edges, list: seq<Node>, found: set<Node>, bs: Node) {
    && (forall n :: n in list ==> n in found)
    && (forall n :: n in found && n !in list ==> Reach(es, n, bs))
  }

  /**
   Adds the subtree of `bs` to a topologically sorted list: exactly the nodes that can be reached
   from `bs`, each once, every parent before its children.
   */
  method TopologicalDfs(es: Edges, list: seq<Node>, found: set<Node>, bs: Node)
    returns (list': seq<Node>, found': set<Node>)
    requires Acyclic(es) && Topological(es, list) && OnTheWay(es, list, found, bs)
    requires bs in found ==> bs in list
    ensures Topological(es, list')
    ensures forall n :: n in list' <==> n in list || Reach(es, bs, n)
    ensures forall n :: n in found' <==> n in found || Reach(es, bs, n)
    decreases Nodes(es) + {bs} - found
  {
    ReachSelf(es, bs);
    if bs in found {
      ListedSubtree(es, list, bs);
      return list, found;
    }
    list', found' := list, found + {bs};
    var todo := Children(es, bs);
    while todo != {}
      invariant todo <= Children(es, bs) && Topological(es, list') && bs !in list'
      invariant forall n :: n in list' <==> n in list || BelowSome(es, Children(es, bs) - todo, n)
      invariant forall n :: n in found' <==> n in found || n == bs || BelowSome(es, Children(es, bs) - todo, n)
      decreases |todo|
    {
      var c :| c in todo;
      var n := es[c].bs.value;
      ChildLinks(es, bs, c);
      StillOnTheWay(es, list, list', found, found', bs, Children(es, bs) - todo, n);
      LinkNodes(es, bs, n);
      ghost var listed := Children(es, bs) - todo;
      list', found' := TopologicalDfs(es, list', found', n);
      todo := todo - {c};
      assert Children(es, bs) - todo == listed + {c};
      BelowMore(es, listed, c);
    }
    AllListed(es, list', bs, list);
    Prepend(es, list', bs);
    list' := [bs] + list';
  }

  /** `n` lies below the lower end of one of these edges. */
  ghost predicate BelowSome(es: Edges, cs: set<EdgeId>, n: Node) {
    exists c :: c in cs && c in es && es[c].bs.Some? && Reach(es, es[c].bs.value, n)
  }

  lemma {:induction false} BelowMore(es: Edges, cs: set<EdgeId>, c: EdgeId)
    requires c in es && es[c].bs.Some?
    ensures forall n :: BelowSome(es, cs + {c}, n) <==> BelowSome(es, cs, n) || Reach(es, es[c].bs.value, n)
  {
    forall n
      ensures BelowSome(es, cs + {c}, n) <==> BelowSome(es, cs, n) || Reach(es, es[c].bs.value, n)
    {
      if Reach(es, es[c].bs.value, n) {
        assert c in cs + {c};
      }
      if BelowSome(es, cs, n) {
        var d :| d in cs && d in es && es[d].bs.Some? && Reach(es, es[d].bs.value, n);
        assert d in cs + {c};
      }
    }
  }

  lemma {:induction false} ListedSubtree(es: Edges, list: seq<Node>, bs: Node)
    requires Topological(es, list) && bs in list
    ensures forall n :: Reach(es, bs, n) ==> n in list
  {
    var s := set n | n in list;
    forall n | Reach(es, bs, n)
      ensures n in list
    {
      ClosedHasAll(es, s, bs, n);
    }
  }

  lemma {:induction false} StillOnTheWay(es: Edges, list: seq<Node>, list': seq<Node>, found: set<Node>,
        found': set<Node>, bs: Node, cs: set<EdgeId>, n: Node)
    requires Acyclic(es) && OnTheWay(es, list, found, bs) && Links(es, bs, n)
    requires forall n :: n in list' <==> n in list || BelowSome(es, cs, n)
    requires forall n :: n in found' <==> n in found || n == bs || BelowSome(es, cs, n)
    ensures OnTheWay(es, list', found', n) && (n in found' ==> n in list')
  {
    ReachSelf(es, bs);
    forall m | m in found' && m !in list'
      ensures Reach(es, m, n) && m != n
    {
      ReachLink(es, m, bs, n);
    }
  }

  lemma {:induction false} AllListed(es: Edges, list': seq<Node>, bs: Node, list: seq<Node>)
    requires Acyclic(es)
    requires forall n :: n in list' <==> n in list || BelowSome(es, Children(es, bs), n)
    ensures !Links(es, bs, bs) && forall y :: Links(es, bs, y) ==> y in list'
    ensures forall n :: n in list' || n == bs <==> n in list || Reach(es, bs, n)
  {
    ReachSelf(es, bs);
    forall y | Links(es, bs, y)
      ensures y in list'
    {
      var c :| Joins(es, c, bs, y);
      ReachSelf(es, y);
      assert c in Children(es, bs);
    }
    forall n | BelowSome(es, Children(es, bs), n)
      ensures Reach(es, bs, n)
    {
      var c :| c in Children(es, bs) && c in es && es[c].bs.Some? && Reach(es, es[c].bs.value, n);
      ChildLinks(es, bs, c);
      ReachStep(es, bs, es[c].bs.value, n);
    }
    forall n | Reach(es, bs, n) && n != bs
      ensures BelowSome(es, Children(es, bs), n)
    {
      var p :| PathFromTo(es, p, bs, n);
      PathTail(es, p, bs, n);
      var c :| Joins(es, c, bs, p[1]);
      assert c in Children(es, bs) && Reach(es, p[1], n);
    }
  }

  /** `bdrv_list_refresh_perms`, first half: the subtrees of several nodes in one list. */
  method TopologicalList(es: Edges, roots: seq<Node>) returns (list: seq<Node>)
    requires Acyclic(es)
    ensures Topological(es, list)
    ensures forall n :: n in list <==> exists r :: r in roots && Reach(es, r, n)
  {
    list := [];
    var found := {};
    for i := 0 to |roots|
      invariant Topological(es, list)
      invariant forall n :: n in list <==> n in found
      invariant forall n :: n in list <==> exists r :: r in roots[..i] && Reach(es, r, n)
    {
      list, found := TopologicalDfs(es, list, found, roots[i]);
      assert roots[..i + 1] == roots[..i] + [roots[i]];
    }
    assert roots[..|roots|] == roots;
  }
}
