/**
 Permissions on the edges of the block graph.  What a node needs of its children is the driver's function
 of what its own parents need and share; one pass over a topologically sorted list updates all of them
 (`bdrv_do_refresh_perms`).
 */
module BlockPerms {
  import opened Options
  import opened BlockGraph
  import opened BlockWalk

  const ALL: set<Perm> := {ConsistentRead, Write, WriteUnchanged, Resize}

  /** What the permission update asks of nodes and drivers. */
  datatype Drivers = Drivers(
    open: set<Node>,        // nodes that have a driver
    writable: set<Node>,
    aligned: set<Node>,     // nodes whose size is a multiple of the request alignment
    forceShare: set<Node>,
    check: (Node, set<Perm>, set<Perm>) -> bool,
    childPerm: (Node, Option<EdgeId>, Role, set<Perm>, set<Perm>) -> (set<Perm>, set<Perm>))

  function CumPerm(es: Edges, n: Node): set<Perm> {
    set c, p | c in Parents(es, n) && p in es[c].perm :: p
  }

  function CumShared(es: Edges, n: Node): set<Perm> {
    set p | p in ALL && forall c :: c in Parents(es, n) ==> p in es[c].shared
  }

  /** No parent needs what another one does not share. */
  predicate NoConflict(es: Edges, n: Node) {
    forall a, b :: a in Parents(es, n) && b in Parents(es, n) && a != b ==> es[b].perm <= es[a].shared
  }

  /** The checks of `bdrv_node_refresh_perm`. */
  predicate Accepts(d: Drivers, n: Node, perm: set<Perm>, shared: set<Perm>) {
    var writes := Write in perm || WriteUnchanged in perm;
    && (writes ==> n in d.writable)
    && (writes && Resize !in perm ==> n in d.aligned)
    && (n in d.open ==> d.check(n, perm, shared))
  }

  /** The user of this edge may write. */
  predicate Writes(e: Edge) {
    Write in e.perm || WriteUnchanged in e.perm
  }

  /**
   What the edges into `n` must be like: nobody needs what another one does not share, nobody writes to a
   read-only node, a node of odd size is written to only together with somebody who may resize it, and
   the driver agrees to what all need and all share.
   */
  predicate Passes(d: Drivers, es: Edges, n: Node) {
    && NoConflict(es, n)
    && (forall c :: c in Parents(es, n) && Writes(es[c]) ==> n in d.writable)
    && (forall c :: c in Parents(es, n) && Writes(es[c]) && n !in d.aligned ==> Resizable(es, n))
    && (n in d.open ==> d.check(n, CumPerm(es, n), CumShared(es, n)))
  }

  /** Somebody may resize `n`. */
  predicate Resizable(es: Edges, n: Node) {
    exists c :: c in Parents(es, n) && Resize in es[c].perm
  }

  /** The checks on the cumulative permissions come out as those on the edges. */
  lemma {:induction false} PassesIs(d: Drivers, es: Edges, n: Node)
    ensures Passes(d, es, n) <==> NoConflict(es, n) && Accepts(d, n, CumPerm(es, n), CumShared(es, n))
  {
    if c :| c in Parents(es, n) && Writes(es[c]) {
      assert Write in CumPerm(es, n) || WriteUnchanged in CumPerm(es, n);
    }
    if c :| c in Parents(es, n) && Resize in es[c].perm {
      assert Resize in CumPerm(es, n);
    }
    assert Write in CumPerm(es, n) ==> exists c :: c in Parents(es, n) && Writes(es[c]);
    assert WriteUnchanged in CumPerm(es, n) ==> exists c :: c in Parents(es, n) && Writes(es[c]);
    assert Resize in CumPerm(es, n) ==> Resizable(es, n);
  }

  /** `bdrv_child_perm`: what node `n` needs and shares on an edge, given its own cumulative permissions. */
  function Wanted(d: Drivers, n: Node, c: Option<EdgeId>, role: Role, child: Option<Node>, perm: set<Perm>,
        shared: set<Perm>)
    : (set<Perm>, set<Perm>)
  {
    var (p, s) := d.childPerm(n, c, role, perm, shared);
    (p, if child.Some? && child.value in d.forceShare then ALL else s)
  }

  function WithPerm(e: Edge, w: (set<Perm>, set<Perm>)): Edge {
    e.(perm := w.0, shared := w.1)
  }

  /**
   The edges below `n` carry what its driver makes of what all its users need and share, except that
   everything is shared on an edge to a node that is opened that way.
   */
  predicate Settled(d: Drivers, es: Edges, n: Node) {
    n in d.open ==> forall c :: c in Children(es, n) ==>
      var w := d.childPerm(n, Some(c), es[c].role, CumPerm(es, n), CumShared(es, n));
      es[c].perm == w.0 && es[c].shared == if es[c].bs.value in d.forceShare then ALL else w.1
  }

  // ---------------------------------------------------------------- one pass

  /** What the pass needs of its list: no duplicates, parents first. */
  ghost predicate Ordered(es: Edges, list: seq<Node>) {
    NoDuplicates(list) && Sorted(es, list)
  }

  /** The edges `cs` below `n` get what the driver makes of these permissions. */
  function RefreshEdges(d: Drivers, es: Edges, n: Node, cs: set<EdgeId>, perm: set<Perm>, shared: set<Perm>): Edges {
    map c | c in es :: if c in cs then WithPerm(es[c], Wanted(d, n, Some(c), es[c].role, es[c].bs, perm, shared))
        else es[c]
  }

  function RefreshNode(d: Drivers, es: Edges, n: Node): Edges {
    RefreshEdges(d, es, n, if n in d.open then Children(es, n) else {}, CumPerm(es, n), CumShared(es, n))
  }

  function Pass(d: Drivers, es: Edges, list: seq<Node>): Edges {
    if list == [] then es else Pass(d, RefreshNode(d, es, list[0]), list[1..])
  }

  /** The same edges between the same nodes; permissions may differ. */
  predicate SameShape(es: Edges, es': Edges) {
    es.Keys == es'.Keys && forall c :: c in es ==> es'[c] == WithPerm(es[c], (es'[c].perm, es'[c].shared))
  }

  lemma {:induction false} SameLinks(es: Edges, es': Edges)
    requires SameShape(es, es')
    ensures forall n :: Children(es', n) == Children(es, n)
    ensures forall n :: Parents(es', n) == Parents(es, n)
    ensures forall a, b :: Links(es', a, b) <==> Links(es, a, b)
  {
    assert forall c :: c in es <==> c in es';
    assert forall c, a, b :: Joins(es', c, a, b) <==> Joins(es, c, a, b);
    forall n
      ensures Children(es', n) == Children(es, n) && Parents(es', n) == Parents(es, n)
    {
    }
  }

  lemma {:induction false} ShapeOrdered(es: Edges, es': Edges, list: seq<Node>)
    requires SameShape(es, es') && Ordered(es, list)
    ensures Ordered(es', list)
  {
    SameLinks(es, es');
  }

  lemma {:induction false} PassShape(d: Drivers, es: Edges, list: seq<Node>)
    ensures SameShape(es, Pass(d, es, list))
  {
    if list != [] {
      PassShape(d, RefreshNode(d, es, list[0]), list[1..]);
    }
  }

  /** An edge changes only when its parent's turn comes. */
  lemma {:induction false} PassFrame(d: Drivers, es: Edges, list: seq<Node>, c: EdgeId)
    requires c in es && (es[c].parent.Some? ==> es[c].parent.value !in list)
    ensures c in Pass(d, es, list) && Pass(d, es, list)[c] == es[c]
  {
    if list != [] {
      PassFrame(d, RefreshNode(d, es, list[0]), list[1..], c);
    }
  }

  /** Two graphs of the same shape whose edges into `n` carry the same permissions treat `n` the same. */
  lemma {:induction false} SameCum(d: Drivers, es: Edges, es': Edges, n: Node)
    requires SameShape(es, es') && forall c :: c in Parents(es, n) ==> es'[c] == es[c]
    ensures CumPerm(es', n) == CumPerm(es, n) && CumShared(es', n) == CumShared(es, n)
    ensures Passes(d, es', n) <==> Passes(d, es, n)
  {
    SameLinks(es, es');
  }

  lemma {:induction false} HeadOnly(es: Edges, list: seq<Node>)
    requires Ordered(es, list) && list != []
    ensures list[0] !in list[1..]
    ensures forall p :: Links(es, p, list[0]) ==> p !in list
  {
    assert forall i :: 0 <= i < |list[1..]| ==> list[1..][i] == list[i + 1];
  }

  lemma {:induction false} ParentEdge(es: Edges, n: Node, c: EdgeId)
    requires c in Parents(es, n) && es[c].parent.Some?
    ensures Links(es, es[c].parent.value, n)
  {
    assert Joins(es, c, es[c].parent.value, n);
  }

  /** When a node's turn comes, the edges into it have their final permissions. */
  lemma {:induction false} HeadFinal(d: Drivers, es: Edges, list: seq<Node>)
    requires Ordered(es, list) && list != []
    ensures var final := Pass(d, es, list);
            && SameShape(es, final) && forall c :: c in Parents(es, list[0]) ==> final[c] == es[c]
  {
    hide Pass;
    PassShape(d, es, list);
    HeadOnly(es, list);
    forall c | c in Parents(es, list[0])
      ensures Pass(d, es, list)[c] == es[c]
    {
      if es[c].parent.Some? {
        ParentEdge(es, list[0], c);
      }
      PassFrame(d, es, list, c);
    }
  }

  lemma {:induction false} RestOrdered(d: Drivers, es: Edges, list: seq<Node>)
    requires list != [] && Ordered(es, list)
    ensures Ordered(RefreshNode(d, es, list[0]), list[1..])
  {
    var es', rest := RefreshNode(d, es, list[0]), list[1..];
    SameLinks(es, es');
    assert forall i :: 0 <= i < |rest| ==> rest[i] == list[i + 1];
  }

  lemma {:induction false} HeadSettled(d: Drivers, es: Edges, list: seq<Node>)
    requires Ordered(es, list) && list != []
    ensures Settled(d, Pass(d, es, list), list[0])
  {
    var n, final, es' := list[0], Pass(d, es, list), RefreshNode(d, es, list[0]);
    HeadFinal(d, es, list);
    SameCum(d, es, final, n);
    SameLinks(es, final);
    SameLinks(es, es');
    HeadOnly(es, list);
    hide CumPerm, CumShared, Wanted;
    forall c | c in Children(final, n)
      ensures final[c] == es'[c]
    {
      PassFrame(d, es', list[1..], c);
    }
  }

  /**
   One pass over a list in which parents come first reaches a fixpoint: afterwards every edge below a
   node of the list is what the driver makes of the final permissions of that node's parents.
   */
  lemma {:induction false} PassSettles(d: Drivers, es: Edges, list: seq<Node>, k: nat)
    requires Ordered(es, list) && k < |list|
    ensures Settled(d, Pass(d, es, list), list[k])
  {
    if k == 0 {
      HeadSettled(d, es, list);
    } else {
      RestOrdered(d, es, list);
      PassSettles(d, RefreshNode(d, es, list[0]), list[1..], k - 1);
    }
  }

  /** An edge that no node of the list decides: its parent is not listed, or has no driver. */
  predicate Undecided(d: Drivers, es: Edges, list: seq<Node>, c: EdgeId) {
    c in es && (es[c].bs.None? || es[c].parent.None? || es[c].parent.value !in list || es[c].parent.value !in d.open)
  }

  ghost predicate Agree(d: Drivers, es: Edges, es': Edges, list: seq<Node>) {
    forall c :: Undecided(d, es, list, c) && c in es' ==> es'[c] == es[c]
  }

  lemma {:induction false} AgreeHead(d: Drivers, es: Edges, es': Edges, list: seq<Node>)
    requires Ordered(es, list) && list != [] && SameShape(es, es') && Agree(d, es, es', list)
    requires Settled(d, es, list[0]) && Settled(d, es', list[0])
    ensures Agree(d, es, es', list[1..])
  {
    var n := list[0];
    HeadOnly(es, list);
    SameLinks(es, es');
    forall c | c in Parents(es, n)
      ensures es'[c] == es[c]
    {
      if es[c].parent.Some? {
        ParentEdge(es, n, c);
      }
      assert Undecided(d, es, list, c);
    }
    SameCum(d, es, es', n);
    forall c | Undecided(d, es, list[1..], c)
      ensures es'[c] == es[c]
    {
      if !Undecided(d, es, list, c) {
        assert es[c].parent.value == n && c in Children(es, n);
      }
    }
  }

  /** The fixpoint is unique: the permissions above the listed nodes and the drivers determine it. */
  lemma {:induction false} FixpointUnique(d: Drivers, es: Edges, es': Edges, list: seq<Node>)
    requires Ordered(es, list) && SameShape(es, es') && Agree(d, es, es', list)
    requires forall n :: n in list ==> Settled(d, es, n) && Settled(d, es', n)
    ensures es' == es
  {
    if list == [] {
      assert forall c :: c in es ==> Undecided(d, es, list, c);
    } else {
      AgreeHead(d, es, es', list);
      assert forall i :: 0 <= i < |list[1..]| ==> list[1..][i] == list[i + 1];
      FixpointUnique(d, es, es', list[1..]);
    }
  }

  /** The checks that a node meets when its turn comes come out as they would at the end. */
  lemma {:induction false} HeadPasses(d: Drivers, es: Edges, list: seq<Node>)
    requires Ordered(es, list) && list != []
    ensures Passes(d, es, list[0]) <==> Passes(d, Pass(d, es, list), list[0])
  {
    HeadFinal(d, es, list);
    SameCum(d, es, Pass(d, es, list), list[0]);
  }

  lemma {:induction false} PassUndecided(d: Drivers, es: Edges, list: seq<Node>, c: EdgeId)
    requires Undecided(d, es, list, c)
    ensures c in Pass(d, es, list) && Pass(d, es, list)[c] == es[c]
  {
    if list != [] {
      var es' := RefreshNode(d, es, list[0]);
      assert es'[c] == es[c];
      PassUndecided(d, es', list[1..], c);
    }
  }

  /** Whatever satisfies all the drivers' demands is what the pass computes. */
  lemma {:induction false} PassIsTheFixpoint(d: Drivers, es: Edges, es': Edges, list: seq<Node>)
    requires Ordered(es, list) && SameShape(es, es') && Agree(d, es, es', list)
    requires forall n :: n in list ==> Settled(d, es', n)
    ensures es' == Pass(d, es, list)
  {
    hide RefreshNode, Settled;
    var final := Pass(d, es, list);
    PassShape(d, es, list);
    ShapeOrdered(es, final, list);
    forall n | n in list
      ensures Settled(d, final, n)
    {
      var k :| 0 <= k < |list| && list[k] == n;
      PassSettles(d, es, list, k);
    }
    forall c | Undecided(d, final, list, c)
      ensures es'[c] == final[c]
    {
      assert Undecided(d, es, list, c);
      PassUndecided(d, es, list, c);
    }
    FixpointUnique(d, final, es', list);
  }

  // ---------------------------------------------------------------- what a permission update may do

  ghost predicate BelowAny(es: Edges, roots: seq<Node>, n: Node) {
    exists r :: r in roots && Reach(es, r, n)
  }

  /** The edge belongs to an open node below `roots`. */
  ghost predicate Decided(d: Drivers, es: Edges, roots: seq<Node>, c: EdgeId) {
    && c in es && es[c].bs.Some? && es[c].parent.Some?
    && BelowAny(es, roots, es[c].parent.value) && es[c].parent.value in d.open
  }

  /**
   `es'` is `es` with permissions that suit every node below `roots`: only the edges of these nodes
   changed, each carries what its driver asks for, and no node refuses.
   */
  ghost predicate Consistent(d: Drivers, es: Edges, es': Edges, roots: seq<Node>) {
    && SameShape(es, es')
    && (forall c :: c in es && !Decided(d, es, roots, c) ==> es'[c] == es[c])
    && (forall n :: BelowAny(es, roots, n) ==> Settled(d, es', n) && Passes(d, es', n))
  }

  /** The permissions suit every node below `roots`. */
  ghost predicate AllSuited(d: Drivers, es: Edges, roots: seq<Node>) {
    forall n :: BelowAny(es, roots, n) ==> Settled(d, es, n) && Passes(d, es, n)
  }

  /** There is at most one such graph, and the pass finds it if it exists. */
  lemma {:induction false} ConsistentIffPasses(d: Drivers, es: Edges, es': Edges, roots: seq<Node>, list: seq<Node>)
    requires Ordered(es, list) && forall n :: n in list <==> BelowAny(es, roots, n)
    ensures Consistent(d, es, es', roots) <==>
            es' == Pass(d, es, list) && forall n :: n in list ==> Passes(d, es', n)
  {
    hide Pass, Settled, Passes, Ordered, BelowAny;
    var final := Pass(d, es, list);
    if Consistent(d, es, es', roots) {
      PassIsTheFixpoint(d, es, es', list);
    }
    if es' == final && forall n :: n in list ==> Passes(d, es', n) {
      PassShape(d, es, list);
      forall n | BelowAny(es, roots, n)
        ensures Settled(d, final, n)
      {
        var k :| 0 <= k < |list| && list[k] == n;
        PassSettles(d, es, list, k);
      }
      forall c | Undecided(d, es, list, c)
        ensures final[c] == es[c]
      {
        PassUndecided(d, es, list, c);
      }
    }
  }

  /** There are permissions that suit everybody below `roots`. */
  ghost predicate Possible(d: Drivers, es: Edges, roots: seq<Node>) {
    exists es' :: Consistent(d, es, es', roots)
  }

  lemma {:induction false} PossibleIffPasses(d: Drivers, es: Edges, roots: seq<Node>, list: seq<Node>)
    requires Ordered(es, list) && forall n :: n in list <==> BelowAny(es, roots, n)
    ensures var final := Pass(d, es, list);
            && (Possible(d, es, roots) <==> forall n :: n in list ==> Passes(d, final, n))
            && (Possible(d, es, roots) ==> Consistent(d, es, final, roots))
  {
    hide Pass, Passes, Ordered, BelowAny, Consistent;
    var final := Pass(d, es, list);
    ConsistentIffPasses(d, es, final, roots, list);
    if Possible(d, es, roots) {
      var es' :| Consistent(d, es, es', roots);
      ConsistentIffPasses(d, es, es', roots, list);
    }
  }

  /** An edge that the update does not decide, and that lets somebody write to a read-only node, makes it fail. */
  lemma {:induction false} ReadOnlyRefused(d: Drivers, es: Edges, roots: seq<Node>, c: EdgeId, n: Node)
    requires c in es && es[c].bs == Some(n) && BelowAny(es, roots, n) && n !in d.writable
    requires Writes(es[c]) && !Decided(d, es, roots, c)
    ensures !Possible(d, es, roots)
  {
    forall es' | Consistent(d, es, es', roots)
      ensures c in Parents(es', n) && es'[c] == es[c] && Passes(d, es', n)
    {
      hide Passes;
    }
  }

  // ---------------------------------------------------------------- reading the parents

  /** `bdrv_parent_perms_conflict` */
  method ParentPermsConflict(es: Edges, n: Node) returns (conflict: bool)
    ensures conflict <==> !NoConflict(es, n)
  {
    var upper := Parents(es, n);
    while upper != {}
      invariant upper <= Parents(es, n)
      invariant forall a, b :: a in Parents(es, n) - upper && b in Parents(es, n) && a != b ==>
        es[b].perm <= es[a].shared
      decreases |upper|
    {
      var a :| a in upper;
      var bs := Parents(es, n);
      while bs != {}
        invariant bs <= Parents(es, n)
        invariant forall b :: b in Parents(es, n) - bs && a != b ==> es[b].perm <= es[a].shared
        decreases |bs|
      {
        var b :| b in bs;
        if a != b && es[b].perm * es[a].shared != es[b].perm {
          assert !(es[b].perm <= es[a].shared);
          return true;
        }
        assert a != b ==> es[b].perm <= es[a].shared by {
          assert es[b].perm * es[a].shared <= es[a].shared;
        }
        bs := bs - {b};
      }
      upper := upper - {a};
    }
    conflict := false;
  }

  /** `bdrv_get_cumulative_perm` */
  method GetCumulativePerm(es: Edges, n: Node) returns (perm: set<Perm>, shared: set<Perm>)
    ensures perm == CumPerm(es, n) && shared == CumShared(es, n)
  {
    perm, shared := {}, ALL;
    var todo := Parents(es, n);
    while todo != {}
      invariant todo <= Parents(es, n)
      invariant perm == set c, p | c in Parents(es, n) - todo && p in es[c].perm :: p
      invariant shared == set p | p in ALL && forall c :: c in Parents(es, n) - todo ==> p in es[c].shared
      decreases |todo|
    {
      var c :| c in todo;
      perm := perm + es[c].perm;
      shared := shared * es[c].shared;
      todo := todo - {c};
    }
  }
}
