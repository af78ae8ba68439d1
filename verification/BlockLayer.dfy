/**
 The operations of `block.c` that change the graph: attaching and removing edges, replacing a node under
 its parents, appending a node on top of a chain.  Each runs in a transaction: it changes the graph
 first, then updates permissions, and undoes everything if one step fails.
 */
module BlockLayer {
  import opened Options
  import opened BlockGraph
  import opened BlockWalk
  import opened BlockPerms
  import opened BlockUndo
  import opened BlockRedirect

  class Layer {
    const kinds: Kinds
    const drivers: Drivers
    const inactive: set<Node>

    var edges: Edges
    var links: map<(Node, Slot), EdgeId>
    var refcnt: multiset<Node>
    var unrefs: multiset<Node>       // scheduled, not yet done
    var log: seq<Record>             // the open transaction
    ghost var held: multiset<Node>   // references held by callers
    ghost var base: Graph            // the graph when the transaction was opened

    /** No edges; the callers hold the references to the nodes they opened. */
    constructor (kinds: Kinds, drivers: Drivers, inactive: set<Node>, initial: multiset<Node>)
      ensures Idle() && this.kinds == kinds && this.drivers == drivers && this.inactive == inactive
      ensures held == initial && edges == map[] && unrefs == multiset{}
    {
      this.kinds, this.drivers, this.inactive := kinds, drivers, inactive;
      edges, links, refcnt, unrefs, log := map[], map[], initial, multiset{}, [];
      held, base := initial, Graph(map[], map[]);
      new;
      assert forall n :: Parents(edges, n) == {};
      assert forall c, a, b :: !Joins(edges, c, a, b);
    }

    ghost function G(): Graph
      reads this
    {
      Graph(edges, links)
    }

    ghost predicate Valid()
      reads this
    {
      && SlotsOk(kinds, G()) && SlotsOk(kinds, base)
      && Undoes(kinds, G(), log, base)
      && Conserved(refcnt, held, edges, log, unrefs)
    }

    /** No transaction is open. */
    ghost predicate Idle()
      reads this
    {
      Valid() && log == [] && Acyclic(edges)
    }

    // -------------------------------------------------------------- records

    /** `bdrv_child_set_perm` */
    method SetPerm(c: EdgeId, perm: set<Perm>, shared: set<Perm>)
      requires Valid() && c in edges
      modifies this`edges, this`log
      ensures Valid() && edges == old(edges)[c := WithPerm(old(edges)[c], (perm, shared))]
      ensures log == old(log) + [PermSet(c, old(edges)[c].perm, old(edges)[c].shared)]
    {
      var r := PermSet(c, edges[c].perm, edges[c].shared);
      ghost var g := G();
      UndoPermSet(kinds, g, c, (perm, shared));
      log := log + [r];
      edges := edges[c := WithPerm(edges[c], (perm, shared))];
      UndoesMore(kinds, g, G(), old(log), r, base);
      PermSlots(kinds, g, c, (perm, shared));
      LogRefsSnoc(old(log), r);
      PermParents(old(edges), c, (perm, shared));
    }

    /** `bdrv_replace_child_tran` on an attached edge */
    method ReplaceChildTran(c: EdgeId, bs: Option<Node>)
      requires Valid() && c in edges && edges[c].bs.Some? && !edges[c].frozen && edges[c].bs != bs
      modifies this`edges, this`links, this`refcnt, this`log
      ensures Valid() && G() == SetBs(kinds, old(G()), c, bs)
      ensures edges == old(edges)[c := old(edges)[c].(bs := bs)]
      ensures log == old(log) + [Replaced(c, old(edges)[c].bs)]
    {
      hide SlotsOk, Undoes, Undo, SetBs, Conserved;
      ghost var g := G();
      var r := Replaced(c, edges[c].bs);
      UndoReplaced(kinds, g, c, bs);
      SetBsBack(kinds, g, c, bs);
      ConservedMove(refcnt, held, edges, log, unrefs, c, bs);
      SetBsEdges(kinds, g, c, bs);
      log := log + [r];
      if bs.Some? {
        refcnt := refcnt + multiset{bs.value};
      }
      assert refcnt == old(refcnt) + RefOf(bs);
      ReplaceChildNoperm(c, bs);
      UndoesMore(kinds, g, G(), old(log), r, base);
    }

    /** `bdrv_replace_child_noperm`, with the hooks of the parent. */
    method ReplaceChildNoperm(c: EdgeId, bs: Option<Node>)
      requires c in edges
      modifies this`edges, this`links
      ensures G() == SetBs(kinds, old(G()), c, bs)
      ensures SlotsOk(kinds, old(G())) && old(edges)[c].bs.Some? ==> SlotsOk(kinds, G())
      ensures old(edges)[c].bs.None? ==>
        links == if bs.Some? then Linked(kinds, old(links), edges[c].parent, edges[c].role, c) else old(links)
    {
      if SlotsOk(kinds, G()) && edges[c].bs.Some? {
        SetBsBack(kinds, G(), c, bs);
      }
      hide SlotsOk;
      var e := edges[c];
      if e.bs.Some? && e.parent.Some? {
        if (e.parent.value, BackingSlot) in links && links[(e.parent.value, BackingSlot)] == c {
          links := links - {(e.parent.value, BackingSlot)};
        } else if (e.parent.value, FileSlot) in links && links[(e.parent.value, FileSlot)] == c {
          links := links - {(e.parent.value, FileSlot)};
        }
      }
      edges := edges[c := e.(bs := bs)];
      if bs.Some? && e.parent.Some? {
        var slot := SlotOf(kinds(e.parent.value), e.role);
        SlotIs(kinds(e.parent.value), e.role);
        if slot != NoSlot {
          links := links[(e.parent.value, slot) := c];
        }
      }
      assert old(edges)[c := e.(bs := None)][c := e.(bs := bs)] == edges;
    }

    /** `bdrv_attach_child_common`; `id` is the new edge, `moves` says whether the AioContexts can be made to agree. */
    method AttachChildCommon(id: EdgeId, bs: Node, parent: Option<Node>, role: Role, perm: set<Perm>, shared: set<Perm>,
                             stayAtNode: bool, moves: bool) returns (ok: bool)
      requires Valid() && id !in edges
      requires SlotFree(kinds, G(), Edge(None, parent, perm, shared, role, false, stayAtNode))
      modifies this`edges, this`links, this`refcnt, this`log
      ensures Valid()
      ensures ok <==> moves && (bs in inactive ==> perm <= {ConsistentRead})
      ensures !ok ==> G() == old(G()) && log == old(log) && refcnt == old(refcnt)
      ensures ok ==> edges == old(edges)[id := Edge(Some(bs), parent, perm, shared, role, false, stayAtNode)]
                     && log == old(log) + [Attached(id)] && links == Linked(kinds, old(links), parent, role, id)
    {
      hide SlotsOk, Undoes, Undo, SetBs, Conserved, PutOn, SlotFree;
      if (bs in inactive && perm - {ConsistentRead} != {}) || !moves {
        return false;
      }
      ghost var g := G();
      var e := Edge(None, parent, perm, shared, role, false, stayAtNode);
      UndoAttached(kinds, g, id, e, bs);
      ConservedAdd(refcnt, held, edges, log, unrefs, id, e, bs);
      refcnt := refcnt + multiset{bs};
      edges := edges[id := e];
      assert e == e.(bs := None);
      FreshPutOn(kinds, G(), id, bs);
      ReplaceChildNoperm(id, Some(bs));
      log := log + [Attached(id)];
      UndoesMore(kinds, g, G(), old(log), Attached(id), base);
      ok := true;
    }

    /** `tran_abort` */
    method TranAbort()
      requires Valid()
      modifies this`edges, this`links, this`refcnt, this`unrefs, this`log
      ensures Valid() && log == [] && G() == base
      ensures PermsOnly(old(log)) ==> unrefs == old(unrefs)
    {
      hide SlotsOk, Undo, SetBs, Conserved;
      while log != []
        invariant Undoes(kinds, G(), log, base) && Conserved(refcnt, held, edges, log, unrefs)
        invariant log <= old(log) && (PermsOnly(old(log)) ==> unrefs == old(unrefs))
        decreases |log|
      {
        var k := |log| - 1;
        var r := log[k];
        assert log == log[..k] + [r];
        log := log[..k];
        UndoRecord(r);
      }
    }

    /** The `abort` function of one record. */
    method UndoRecord(r: Record)
      requires RecordOk(G(), r) && Conserved(refcnt, held, edges, log + [r], unrefs)
      modifies this`edges, this`links, this`refcnt, this`unrefs
      ensures G() == Undo(kinds, old(G()), r) && Conserved(refcnt, held, edges, log, unrefs)
      ensures r.PermSet? || r.DriverTold? ==> unrefs == old(unrefs)
    {
      hide SlotsOk, Conserved;
      match r
      case PermSet(c, perm, shared) =>
        ConservedOther(refcnt, held, edges, log, unrefs, r);
        ConservedPerm(refcnt, held, edges, log, unrefs, c, (perm, shared));
        edges := edges[c := edges[c].(perm := perm, shared := shared)];
      case Replaced(c, was) =>
        var bs := edges[c].bs;
        ConservedMoveBack(refcnt, held, edges, log, unrefs, c, was);
        SetBsEdges(kinds, G(), c, was);
        ReplaceChildNoperm(c, was);
        if bs.Some? {
          refcnt := refcnt - multiset{bs.value};
        } else {
          assert refcnt - multiset{} == refcnt;
        }
      case Attached(c) =>
        var bs := edges[c].bs.value;
        ConservedOther(refcnt, held, edges, log, unrefs, r);
        ConservedDrop(refcnt, held, edges, log, unrefs, c);
        SetBsEdges(kinds, G(), c, None);
        ReplaceChildNoperm(c, None);
        unrefs := unrefs + multiset{bs};
        edges := edges - {c};
        assert old(edges)[c := old(edges)[c].(bs := None)] - {c} == old(edges) - {c};
      case Removed(_) => ConservedOther(refcnt, held, edges, log, unrefs, r);
      case DriverTold(_) => ConservedOther(refcnt, held, edges, log, unrefs, r);
    }

    /** The `commit` function of one record. */
    method CommitRecord(r: Record)
      requires SlotsOk(kinds, G()) && Conserved(refcnt, held, edges, log + [r], unrefs)
      requires r.Removed? ==> r.c in edges && edges[r.c].bs.None?
      modifies this`edges, this`unrefs
      ensures SlotsOk(kinds, G()) && Conserved(refcnt, held, edges, log, unrefs)
      ensures edges == if r.Removed? then old(edges) - {r.c} else old(edges)
      ensures r.PermSet? || r.DriverTold? ==> unrefs == old(unrefs)
    {
      hide Conserved, SlotsOk;
      if r.Replaced? {
        ConservedCommit(refcnt, held, edges, log, unrefs, r);
        unrefs := unrefs + (if r.was.Some? then multiset{r.was.value} else multiset{});
      } else {
        ConservedOther(refcnt, held, edges, log, unrefs, r);
        if r.Removed? {
          ConservedDrop(refcnt, held, edges, log, unrefs, r.c);
          assert unrefs + multiset{} == unrefs;
          DropDetached(kinds, G(), r.c);
          edges := edges - {r.c};
        }
      }
    }

    /** `tran_commit` */
    method TranCommit()
      requires Valid() && CommitReady(edges, log)
      modifies this`edges, this`unrefs, this`log, this`base
      ensures Valid() && log == [] && base == G()
      ensures edges == old(edges) - RemovedIds(old(log))
      ensures PermsOnly(old(log)) ==> unrefs == old(unrefs)
    {
      hide Conserved, SlotsOk, RemovedIds;
      RemovedNone(log);
      while log != []
        invariant |log| <= |old(log)| && log == old(log)[..|log|]
        invariant PermsOnly(old(log)) ==> unrefs == old(unrefs)
        invariant SlotsOk(kinds, G()) && Conserved(refcnt, held, edges, log, unrefs) && CommitReady(edges, log)
        invariant edges == old(edges) - RemovedIds(old(log)[|log|..])
        decreases |log|
      {
        var k := |log| - 1;
        var r := log[k];
        assert log == log[..k] + [r];
        log := log[..k];
        RemovedMore(old(log), k);
        CommitRecord(r);
      }
      assert old(log)[0..] == old(log);
      base := G();
    }

    // -------------------------------------------------------------- permissions

    /** Records that the permission update adds. */
    ghost predicate PermRecords(from: nat)
      reads this
    {
      forall i :: from <= i < |log| ==> log[i].PermSet? || log[i].DriverTold?
    }

    method TellDriver(n: Node)
      requires Valid()
      modifies this`log
      ensures Valid() && log == old(log) + [DriverTold(n)]
    {
      hide SlotsOk, Conserved, Undoes;
      ConservedOther(refcnt, held, edges, log, unrefs, DriverTold(n));
      log := log + [DriverTold(n)];
      UndoesMore(kinds, G(), G(), old(log), DriverTold(n), base);
    }

    /** `bdrv_node_refresh_perm` */
    method NodeRefreshPerm(n: Node) returns (ok: bool)
      requires Valid()
      modifies this`edges, this`log
      ensures Valid() && old(log) <= log && PermRecords(|old(log)|)
      ensures ok <==> Accepts(drivers, n, CumPerm(old(edges), n), CumShared(old(edges), n))
      ensures edges == if ok then RefreshNode(drivers, old(edges), n) else old(edges)
    {
      hide CumPerm, CumShared, SlotsOk, Conserved, Undoes, Wanted;
      var perm, shared := GetCumulativePerm(edges, n);
      var writes := Write in perm || WriteUnchanged in perm;
      if writes && n !in drivers.writable {
        return false;
      }
      if writes && Resize !in perm && n !in drivers.aligned {
        return false;
      }
      if n !in drivers.open {
        RefreshNone(drivers, edges, n, perm, shared);
        return true;
      }
      if !drivers.check(n, perm, shared) {
        return false;
      }
      TellDriver(n);
      RefreshChildren(n, perm, shared);
      ok := true;
    }

    /** The loop over the children of `bdrv_node_refresh_perm`. */
    method RefreshChildren(n: Node, perm: set<Perm>, shared: set<Perm>)
      requires Valid()
      modifies this`edges, this`log
      ensures Valid() && old(log) <= log && PermRecords(|old(log)|)
      ensures edges == RefreshEdges(drivers, old(edges), n, Children(old(edges), n), perm, shared)
    {
      hide Wanted, RefreshEdges, Children, SlotsOk, Conserved, Undoes;
      var todo := Children(edges, n);
      ghost var all := todo;
      AllEdges(edges, n);
      RefreshNone(drivers, edges, n, perm, shared);
      assert all - todo == {};
      while todo != {}
        invariant todo <= all && old(log) <= log && PermRecords(|old(log)|)
        invariant Valid() && edges == RefreshEdges(drivers, old(edges), n, all - todo, perm, shared)
        decreases |todo|
      {
        var c :| c in todo;
        RefreshMore(drivers, old(edges), n, all - todo, c, perm, shared);
        var w := Wanted(drivers, n, Some(c), edges[c].role, edges[c].bs, perm, shared);
        SetPerm(c, w.0, w.1);
        assert all - (todo - {c}) == all - todo + {c};
        todo := todo - {c};
      }
      assert all - {} == all;
    }

    /** `bdrv_do_refresh_perms`: it succeeds exactly when the fixpoint passes all checks, and then has reached it. */
    method DoRefreshPerms(list: seq<Node>) returns (ok: bool)
      requires Valid() && Ordered(edges, list)
      modifies this`edges, this`log
      ensures Valid() && old(log) <= log && PermRecords(|old(log)|) && SameShape(old(edges), edges)
      ensures ok <==> forall n :: n in list ==> Passes(drivers, Pass(drivers, old(edges), list), n)
      ensures ok ==> edges == Pass(drivers, old(edges), list)
    {
      hide SlotsOk, Conserved, Undoes, RefreshNode, NoConflict, Accepts, CumPerm, CumShared, Passes;
      ghost var final := Pass(drivers, edges, list);
      assert list[0..] == list;
      for k := 0 to |list|
        invariant Valid() && old(log) <= log && PermRecords(|old(log)|)
        invariant SameShape(old(edges), edges) && Ordered(edges, list[k..])
        invariant Pass(drivers, edges, list[k..]) == final
        invariant forall i :: 0 <= i < k ==> Passes(drivers, final, list[i])
      {
        var n := list[k];
        assert list[k..][0] == n && list[k..][1..] == list[k + 1..];
        HeadPasses(drivers, edges, list[k..]);
        PassesIs(drivers, edges, n);
        HeadOnly(edges, list[k..]);
        RestOrdered(drivers, edges, list[k..]);
        RefreshShape(drivers, old(edges), edges, n);
        var conflict := ParentPermsConflict(edges, n);
        if conflict {
          return false;
        }
        var fits := NodeRefreshPerm(n);
        if !fits {
          return false;
        }
      }
      ok := true;
    }

    /** `bdrv_list_refresh_perms`: it succeeds if and only if suitable permissions exist, and then sets them. */
    method ListRefreshPerms(roots: seq<Node>) returns (ok: bool)
      requires Valid() && Acyclic(edges)
      modifies this`edges, this`log
      ensures Valid() && old(log) <= log && PermRecords(|old(log)|)
      ensures SameShape(old(edges), edges) && Acyclic(edges)
      ensures ok <==> Possible(drivers, old(edges), roots)
      ensures ok ==> Consistent(drivers, old(edges), edges, roots) && AllSuited(drivers, edges, roots)
    {
      hide SlotsOk, Conserved, Undoes, Pass, Passes, SameShape, Consistent, Sorted, Possible, AllSuited;
      var list := TopologicalList(edges, roots);
      assert forall n :: n in list <==> BelowAny(edges, roots, n);
      ok := DoRefreshPerms(list);
      ShapeAcyclic(old(edges), edges);
      PossibleIffPasses(drivers, old(edges), roots, list);
      if ok {
        ConsistentSuits(drivers, old(edges), edges, roots);
      }
    }

    /** `bdrv_refresh_perms`, inside a transaction. */
    method RefreshPerms(bs: Node) returns (ok: bool)
      requires Valid() && Acyclic(edges)
      modifies this`edges, this`log
      ensures Valid() && old(log) <= log && PermRecords(|old(log)|)
      ensures SameShape(old(edges), edges) && Acyclic(edges)
      ensures ok <==> Possible(drivers, old(edges), [bs])
      ensures ok ==> Consistent(drivers, old(edges), edges, [bs]) && AllSuited(drivers, edges, [bs])
    {
      hide SlotsOk, Conserved, Undoes, Pass, Passes, SameShape, Consistent, Sorted, Possible, AllSuited;
      var list, found := TopologicalDfs(edges, [], {}, bs);
      assert forall n :: n in list <==> BelowAny(edges, [bs], n);
      ok := DoRefreshPerms(list);
      ShapeAcyclic(old(edges), edges);
      PossibleIffPasses(drivers, old(edges), [bs], list);
      if ok {
        ConsistentSuits(drivers, old(edges), edges, [bs]);
      }
    }

    // -------------------------------------------------------------- changes of the graph

    /** What the parent needs and shares on a new edge to `bs`. */
    ghost function NewEdge(es: Edges, parent: Node, bs: Node, role: Role): Edge {
      var w := drivers.childPerm(parent, None, role, CumPerm(es, parent), CumShared(es, parent));
      Edge(Some(bs), Some(parent), w.0, if bs in drivers.forceShare then ALL else w.1, role, false, false)
    }

    /** The link that an edge of this role takes at `parent` is free. */
    ghost predicate Free(parent: Node, role: Role)
      reads this
    {
      SlotFree(kinds, G(), Edge(None, Some(parent), {}, {}, role, false, false))
    }

    /** `bdrv_attach_child_noperm` accepts the edge: no cycle, no active parent over an inactive child. */
    ghost predicate CanAttach(es: Edges, parent: Node, bs: Node, role: Role, moves: bool) {
      && !Reach(es, bs, parent) && moves
      && (bs in inactive ==> parent in inactive && NewEdge(es, parent, bs, role).perm <= {ConsistentRead})
    }

    /** `bdrv_attach_child_noperm` */
    method AttachChildNoperm(id: EdgeId, parent: Node, bs: Node, role: Role, moves: bool) returns (ok: bool)
      requires Valid() && Acyclic(edges) && id !in edges && Free(parent, role)
      modifies this`edges, this`links, this`refcnt, this`log
      ensures Valid() && Acyclic(edges)
      ensures ok <==> CanAttach(old(edges), parent, bs, role, moves)
      ensures ok ==>
        && edges == old(edges)[id := NewEdge(old(edges), parent, bs, role)] && log == old(log) + [Attached(id)]
        && links == Linked(kinds, old(links), Some(parent), role, id)
      ensures !ok ==> G() == old(G()) && log == old(log) && refcnt == old(refcnt)
    {
      hide SlotsOk, Conserved, Undoes, CumPerm, CumShared;
      var cycle := RecurseHasChild(edges, bs, parent);
      if cycle {
        return false;
      }
      if bs in inactive && parent !in inactive {
        return false;
      }
      var perm, shared := GetCumulativePerm(edges, parent);
      var w := Wanted(drivers, parent, None, role, Some(bs), perm, shared);
      ok := AttachChildCommon(id, bs, Some(parent), role, w.0, w.1, false, moves);
      AttachAcyclic(old(edges), id, NewEdge(old(edges), parent, bs, role), bs);
    }

    /** One turn of the loop of `bdrv_replace_node_noperm`; `done` are the edges moved before. */
    method UpdateParent(c: EdgeId, from: Node, to: Node, autoSkip: bool, ghost start: Edges, ghost done: set<EdgeId>)
      returns (ok: bool)
      requires Valid() && Acyclic(start) && from != to && c in Parents(start, from) - done
      requires done <= Movable(start, from, to) && edges == Redirect(start, done, to)
      modifies this`edges, this`links, this`refcnt, this`log
      ensures Valid() && ok == if c in Movable(start, from, to) then !start[c].frozen else autoSkip
      ensures edges == Redirect(start, if ok && c in Movable(start, from, to) then done + {c} else done, to)
      ensures log == old(log) || log == old(log) + [Replaced(c, Some(from))]
    {
      hide SlotsOk, Conserved, Undoes, SetBs, Acyclic;
      UnderSame(start, from, to, done, c);
      RedirectMore(start, done, to, c);
      var update := ShouldUpdateChild(edges, c, to);
      hide Under, Redirect;
      if !update {
        return autoSkip;
      }
      if edges[c].frozen {
        return false;
      }
      ReplaceChildTran(c, Some(to));
      ok := true;
    }

    /** What stops `bdrv_replace_node_noperm`: an edge that must not move, unless skipped, or one that is frozen. */
    ghost predicate Obstacle(es: Edges, from: Node, to: Node, autoSkip: bool, c: EdgeId) {
      c in Parents(es, from) && if c in Movable(es, from, to) then es[c].frozen else !autoSkip
    }

    /** `bdrv_replace_node_noperm` */
    method ReplaceNodeNoperm(from: Node, to: Node, autoSkip: bool) returns (ok: bool)
      requires Valid() && Acyclic(edges) && from != to
      modifies this`edges, this`links, this`refcnt, this`log
      ensures Valid() && Acyclic(edges) && old(log) <= log
      ensures forall i :: |old(log)| <= i < |log| ==> log[i].Replaced?
      ensures ok <==> forall c :: !Obstacle(old(edges), from, to, autoSkip, c)
      ensures ok ==> edges == Redirect(old(edges), Movable(old(edges), from, to), to) && links == old(links)
    {
      hide SlotsOk, Conserved, Undoes, SetBs, Acyclic, Redirect, Parents, Under, Movable;
      MovableParents(edges, from, to);
      var todo := Parents(edges, from);
      ghost var all, movable := todo, Movable(edges, from, to);
      ghost var done := {};
      RedirectNone(edges, to);
      while todo != {}
        invariant todo <= all && Valid() && old(log) <= log
        invariant forall i :: |old(log)| <= i < |log| ==> log[i].Replaced?
        invariant done <= movable && done !! todo && (forall c :: c in movable ==> c in done || c in todo)
        invariant edges == Redirect(old(edges), done, to)
        invariant forall c :: c in all - todo ==> !Obstacle(old(edges), from, to, autoSkip, c)
        decreases |todo|
      {
        var c :| c in todo;
        ok := UpdateParent(c, from, to, autoSkip, old(edges), done);
        if !ok {
          assert Obstacle(old(edges), from, to, autoSkip, c);
          RedirectAcyclic(old(edges), from, to, done);
          return;
        }
        todo := todo - {c};
        done := if c in movable then done + {c} else done;
      }
      assert done == movable;
      RedirectAcyclic(old(edges), from, to, movable);
      RedirectLinks(kinds, old(G()), G(), from, to);
      ok := true;
    }

    /** `bdrv_remove_child` */
    method RemoveChild(c: EdgeId)
      requires Valid() && c in edges && !edges[c].frozen
      modifies this`edges, this`links, this`refcnt, this`log
      ensures Valid() && edges == old(edges)[c := old(edges)[c].(bs := None)]
      ensures log == old(log) + (if old(edges)[c].bs.Some? then [Replaced(c, old(edges)[c].bs)] else []) + [Removed(c)]
    {
      hide SlotsOk, Conserved, Undoes, SetBs;
      if edges[c].bs.Some? {
        ReplaceChildTran(c, None);
      } else {
        assert edges[c := edges[c]] == edges;
      }
      ghost var was := log;
      ConservedOther(refcnt, held, edges, log, unrefs, Removed(c));
      log := log + [Removed(c)];
      UndoesMore(kinds, G(), G(), was, Removed(c), base);
    }

    // -------------------------------------------------------------- whole operations

    /** `tran_finalize`, in a transaction that frees no edge. */
    method TranFinalize(ok: bool)
      requires Valid() && forall i :: 0 <= i < |log| ==> !log[i].Removed?
      modifies this`edges, this`links, this`refcnt, this`unrefs, this`log, this`base
      ensures Valid() && log == []
      ensures if ok then G() == old(G()) else G() == old(base)
      ensures PermsOnly(old(log)) ==> unrefs == old(unrefs)
    {
      hide SlotsOk, Conserved, Undoes;
      if ok {
        TranCommit();
        assert old(edges) - {} == old(edges);
      } else {
        TranAbort();
      }
    }

    /** `bdrv_schedule_unref` of a reference that the caller holds. */
    method ScheduleUnref(n: Node)
      requires Valid() && n in held
      modifies this`unrefs, this`held
      ensures Valid() && held == old(held) - multiset{n} && unrefs == old(unrefs) + multiset{n}
    {
      hide SlotsOk, Undoes, LogRefs;
      unrefs := unrefs + multiset{n};
      held := held - multiset{n};
    }

    /** `bdrv_attach_child` takes over the caller's reference to `bs`, whether it succeeds or not. */
    method AttachChild(id: EdgeId, parent: Node, bs: Node, role: Role, moves: bool) returns (ok: bool)
      requires Idle() && id !in edges && Free(parent, role) && bs in held
      modifies this
      ensures Idle() && held == old(held) - multiset{bs}
      ensures !ok ==> G() == old(G())
      ensures var es := old(edges)[id := NewEdge(old(edges), parent, bs, role)];
              && (ok <==> CanAttach(old(edges), parent, bs, role, moves) && Possible(drivers, es, [parent]))
              && (ok ==> Consistent(drivers, es, edges, [parent]))
      ensures ok ==> AllSuited(drivers, edges, [parent]) && links == Linked(kinds, old(links), Some(parent), role, id)
    {
      hide SlotsOk, Conserved, Acyclic, SameShape, Consistent, Possible, AllSuited;
      ok := AttachChildNoperm(id, parent, bs, role, moves);
      if ok {
        ok := RefreshPerms(parent);
      }
      TranFinalize(ok);
      ScheduleUnref(bs);
    }

    /** `bdrv_root_attach_child`: the parent is not a node. */
    method RootAttachChild(id: EdgeId, bs: Node, role: Role, perm: set<Perm>, shared: set<Perm>, stayAtNode: bool,
          moves: bool)
      returns (ok: bool)
      requires Idle() && id !in edges && bs in held
      modifies this
      ensures Idle() && held == old(held) - multiset{bs}
      ensures !ok ==> G() == old(G())
      ensures var es := old(edges)[id := Edge(Some(bs), None, perm, shared, role, false, stayAtNode)];
              && (ok <==> moves && (bs in inactive ==> perm <= {ConsistentRead}) && Possible(drivers, es, [bs]))
              && (ok ==> Consistent(drivers, es, edges, [bs]))
      ensures ok ==> AllSuited(drivers, edges, [bs]) && links == old(links)
    {
      hide SlotsOk, Conserved, Acyclic, SameShape, Consistent, Possible, AllSuited;
      ok := AttachChildCommon(id, bs, None, role, perm, shared, stayAtNode, moves);
      if ok {
        RootEdge(old(edges), id, edges[id]);
        ok := RefreshPerms(bs);
      }
      TranFinalize(ok);
      ScheduleUnref(bs);
    }

    /** `bdrv_append`: `bs` is put on top of `top`, under all parents of `top` that may move. */
    method Append(id: EdgeId, bs: Node, top: Node, role: Role, moves: bool) returns (ok: bool)
      requires Idle() && id !in edges && Free(bs, role)
      modifies this
      ensures Idle() && held == old(held)
      ensures !ok ==> G() == old(G())
      ensures var es := old(edges)[id := NewEdge(old(edges), bs, top, role)];
              var moved := Redirect(es, Movable(es, top, bs), bs);
              && (ok <==> CanAttach(old(edges), bs, top, role, moves) && (forall c :: !Obstacle(es, top, bs, true, c))
                          && Possible(drivers, moved, [bs]))
              && (ok ==> Consistent(drivers, moved, edges, [bs]) && id in edges && edges[id].bs == Some(top))
      ensures ok ==> AllSuited(drivers, edges, [bs]) && links == Linked(kinds, old(links), Some(bs), role, id)
    {
      hide SlotsOk, Conserved, SameShape, Consistent, Redirect, Movable, Acyclic, Reach, Obstacle, Possible, AllSuited;
      ReachSelf(edges, bs);
      ok := AttachChildNoperm(id, bs, top, role, moves);
      if ok {
        ghost var es := edges;
        ghost var moved := Redirect(es, Movable(es, top, bs), bs);
        NotMoved(es, top, bs, id);
        ok := ReplaceNodeNoperm(top, bs, true);
        if ok {
          ok := RefreshPerms(bs);
          ShapeBs(moved, edges, id);
        }
      }
      TranFinalize(ok);
    }

    /** The only edge that this transaction frees is `detach`. */
    ghost predicate Frees(detach: Option<EdgeId>)
      reads this
    {
      CommitReady(edges, log) && RemovedIds(log) == if detach.Some? then {detach.value} else {}
    }

    /** The first half of `bdrv_replace_node_common`: the graph without its permissions. */
    method ReplaceAndDetach(from: Node, to: Node, autoSkip: bool, detach: Option<EdgeId>) returns (ok: bool)
      requires Idle() && from != to
      requires detach.Some? ==>
        detach.value in edges && edges[detach.value].bs == Some(to) && !edges[detach.value].frozen
      modifies this`edges, this`links, this`refcnt, this`log
      ensures Valid() && Acyclic(edges)
      ensures ok <==> forall c :: !Obstacle(old(edges), from, to, autoSkip, c)
      ensures ok ==> edges == AfterReplace(old(edges), from, to, detach) && Frees(detach)
    {
      hide SlotsOk, Conserved, Movable, Acyclic, Undoes, Redirect, Obstacle;
      StillDetachable(edges, from, to, detach);
      ok := ReplaceNodeNoperm(from, to, autoSkip);
      if ok && detach.Some? {
        LessAcyclicPoint(edges, detach.value);
        RemoveChild(detach.value);
        assert log[|log| - 1] == Removed(detach.value);
      }
    }

    /** `bdrv_replace_node_common`; `detach` is the backing edge of the overlay of `to`, if that is to be removed. */
    method ReplaceNodeCommon(from: Node, to: Node, autoSkip: bool, detach: Option<EdgeId>) returns (ok: bool)
      requires Idle() && from != to
      requires detach.Some? ==>
        detach.value in edges && edges[detach.value].bs == Some(to) && !edges[detach.value].frozen
      modifies this
      ensures Idle() && held == old(held)
      ensures !ok ==> G() == old(G())
      ensures var es := AfterReplace(old(edges), from, to, detach);
              && (ok <==> && (forall c :: !Obstacle(old(edges), from, to, autoSkip, c))
                          && Possible(drivers, es, [from, to]))
              && (ok ==> exists es' :: Consistent(drivers, es, es', [from, to])
                                       && edges == es' - if detach.Some? then {detach.value} else {})
      ensures ok ==> AllSuited(drivers, edges, [from, to])
      ensures ok ==> links == if detach.Some? then Unlinked(old(links), detach.value) else old(links)
    {
      hide SlotsOk, Conserved, SameShape, AllSuited, Consistent, Possible, Acyclic, Obstacle;
      hide AfterReplace, CommitReady, RemovedIds;
      ok := ReplaceAndDetach(from, to, autoSkip, detach);
      ghost var es, was := edges, log;
      if ok {
        ok := ListRefreshPerms([from, to]);
      }
      if ok {
        MorePermRecords(es, edges, was, log);
        ghost var steady, freed := edges, RemovedIds(log);
        TranCommit();
        FreedUnseen(drivers, es, steady, was, [from, to]);
        assert Consistent(drivers, es, steady, [from, to]) && edges == steady - freed;
        ReplacedLinks(kinds, old(G()), G(), drivers, from, to, detach, es, steady);
      } else {
        TranAbort();
      }
    }

    /** `bdrv_root_unref_child`: the edge is freed; permissions are relaxed where that is possible. */
    method RootUnrefChild(c: EdgeId)
      requires Idle() && c in edges && !edges[c].frozen
      modifies this
      ensures Idle() && held == old(held)
      ensures var es, bs := old(edges) - {c}, old(edges)[c].bs;
              if bs.Some? && Possible(drivers, es, [bs.value]) then Consistent(drivers, es, edges, [bs.value])
                  else edges == es
      ensures unrefs == old(unrefs) + RefOf(old(edges)[c].bs) && links == Unlinked(old(links), c)
    {
      hide SlotsOk, Conserved, Acyclic, SameShape, Consistent, Possible;
      var bs := edges[c].bs;
      FreeEdge(c);
      if bs.Some? {
        var ok := RefreshPerms(bs.value);
        TranFinalize(ok);
        ScheduleUnref(bs.value);
      }
      assert held == old(held);
    }

    /** The edge is taken off and freed; its reference is the caller's for now.  A transaction is opened. */
    method FreeEdge(c: EdgeId)
      requires Idle() && c in edges
      modifies this
      ensures Idle() && edges == old(edges) - {c} && unrefs == old(unrefs) && links == Unlinked(old(links), c)
      ensures held == old(held) + RefOf(old(edges)[c].bs)
    {
      hide SlotsOk, Acyclic, SetBs, Conserved;
      SetBsEdges(kinds, G(), c, None);
      FreedSlots(kinds, G(), c);
      ConservedDrop(refcnt, held, edges, log, unrefs, c);
      ConservedHold(refcnt, held, edges - {c}, log, unrefs, RefOf(edges[c].bs));
      LessAcyclic(edges, edges - {c});
      held := held + RefOf(edges[c].bs);
      ReplaceChildNoperm(c, None);
      edges := edges - {c};
      assert edges == old(edges) - {c};
      LessLinks(kinds, old(G()), G(), c);
      base := G();
    }

    /**
     `bdrv_unref` from the bottom half: it never fails its assertion, and the last reference goes when nobody
     has one.
     */
    method UnrefBh(n: Node)
      requires Valid() && n in unrefs
      modifies this`refcnt, this`unrefs
      ensures Valid() && unrefs == old(unrefs) - multiset{n}
      ensures old(refcnt)[n] > 0 && refcnt == old(refcnt) - multiset{n}
      ensures n !in refcnt ==> n !in held && n !in unrefs && Parents(edges, n) == {} && LogRefs(log)[n] == 0
    {
      hide SlotsOk, Undoes, LogRefs;
      assert refcnt[n] > 0;
      refcnt := refcnt - multiset{n};
      unrefs := unrefs - multiset{n};
    }
  }

  /** The links with that of a new child `c` of `parent` among them. */
  function Linked(kinds: Kinds, links: map<(Node, Slot), EdgeId>, parent: Option<Node>, role: Role, c: EdgeId)
    : map<(Node, Slot), EdgeId>
  {
    if parent.None? then links
    else if IsBacking(kinds(parent.value), role) then links[(parent.value, BackingSlot) := c]
    else if IsFile(kinds(parent.value), role) then links[(parent.value, FileSlot) := c]
    else links
  }

  /** The edges decide the links. */
  lemma {:induction false} SameLinkMap(kinds: Kinds, g: Graph, g': Graph)
    requires SlotsOk(kinds, g) && SlotsOk(kinds, g') && g.edges.Keys == g'.edges.Keys
    requires forall c :: c in g.edges ==>
      && g'.edges[c].parent == g.edges[c].parent && g'.edges[c].role == g.edges[c].role
      && (g'.edges[c].bs.Some? <==> g.edges[c].bs.Some?)
    ensures g'.links == g.links
  {
    assert forall c, n, slot :: c in g.edges ==>
      (Takes(kinds, g'.edges[c], n, slot) <==> Takes(kinds, g.edges[c], n, slot));
    forall n, slot
      ensures (n, slot) in g.links ==> HasLink(g', n, slot, g.links[(n, slot)])
      ensures (n, slot) in g'.links ==> HasLink(g, n, slot, g'.links[(n, slot)])
    {
    }
    assert forall k :: k in g.links ==> k == (k.0, k.1);
    assert forall k :: k in g'.links ==> k == (k.0, k.1);
  }

  /** The edges after `from` was replaced by `to` and the edge `detach` was taken off. */
  ghost function AfterReplace(es: Edges, from: Node, to: Node, detach: Option<EdgeId>): Edges {
    var es' := Redirect(es, Movable(es, from, to), to);
    if detach.Some? && detach.value in es' then es'[detach.value := es'[detach.value].(bs := None)] else es'
  }

  /** The links without that of edge `c`. */
  function Unlinked(links: map<(Node, Slot), EdgeId>, c: EdgeId): map<(Node, Slot), EdgeId> {
    map k | k in links && links[k] != c :: links[k]
  }

  /** An edge that is detached or gone has no link; those of the others stay. */
  lemma {:induction false} LessLinks(kinds: Kinds, g: Graph, g': Graph, c: EdgeId)
    requires SlotsOk(kinds, g) && SlotsOk(kinds, g') && (c in g'.edges ==> g'.edges[c].bs.None?)
    requires forall d :: d != c ==> (d in g.edges <==> d in g'.edges)
    requires forall d :: d in g.edges && d != c ==>
      && g'.edges[d].parent == g.edges[d].parent && g'.edges[d].role == g.edges[d].role
      && (g'.edges[d].bs.Some? <==> g.edges[d].bs.Some?)
    ensures g'.links == Unlinked(g.links, c)
  {
    assert forall d, n, slot :: d in g.edges && d != c ==>
      (Takes(kinds, g'.edges[d], n, slot) <==> Takes(kinds, g.edges[d], n, slot));
    forall n, slot
      ensures (n, slot) in g.links && g.links[(n, slot)] != c ==> HasLink(g', n, slot, g.links[(n, slot)])
      ensures (n, slot) in g'.links ==> g'.links[(n, slot)] != c && HasLink(g, n, slot, g'.links[(n, slot)])
    {
    }
    assert forall k :: k in g.links ==> k == (k.0, k.1);
    assert forall k :: k in g'.links ==> k == (k.0, k.1);
  }

  lemma {:induction false} ConsistentSuits(d: Drivers, es: Edges, es': Edges, roots: seq<Node>)
    requires Consistent(d, es, es', roots)
    ensures AllSuited(d, es', roots)
  {
    hide Settled, Passes, Reach, Acyclic;
    ShapeAcyclic(es, es');
  }

  lemma {:induction false} ReplacedLinks(kinds: Kinds, g: Graph, g': Graph, d: Drivers, from: Node, to: Node,
        detach: Option<EdgeId>, es: Edges, steady: Edges)
    requires SlotsOk(kinds, g) && SlotsOk(kinds, g') && (detach.Some? ==> detach.value in g.edges)
    requires es == AfterReplace(g.edges, from, to, detach)
    requires SameShape(es, steady) && g'.edges == steady - if detach.Some? then {detach.value} else {}
    ensures g'.links == if detach.Some? then Unlinked(g.links, detach.value) else g.links
  {
    MovableParents(g.edges, from, to);
    hide SlotsOk, Movable;
    if detach.Some? {
      LessLinks(kinds, g, g', detach.value);
    } else {
      SameLinkMap(kinds, g, g');
    }
  }

  lemma {:induction false} RedirectLinks(kinds: Kinds, g: Graph, g': Graph, from: Node, to: Node)
    requires SlotsOk(kinds, g) && SlotsOk(kinds, g') && g'.edges == Redirect(g.edges, Movable(g.edges, from, to), to)
    ensures g'.links == g.links
  {
    MovableParents(g.edges, from, to);
    hide SlotsOk;
    SameLinkMap(kinds, g, g');
  }

  /** The records change permissions and tell drivers so, nothing else. */
  predicate PermsOnly(log: seq<Record>) {
    forall i :: 0 <= i < |log| ==> log[i].PermSet? || log[i].DriverTold?
  }

  lemma {:induction false} SetBsEdges(kinds: Kinds, g: Graph, c: EdgeId, bs: Option<Node>)
    requires c in g.edges
    ensures SetBs(kinds, g, c, bs).edges == g.edges[c := g.edges[c].(bs := bs)]
  {
    assert g.edges[c := g.edges[c].(bs := None)][c := g.edges[c].(bs := bs)] == g.edges[c := g.edges[c].(bs := bs)];
  }

  lemma {:induction false} PermSlots(kinds: Kinds, g: Graph, c: EdgeId, w: (set<Perm>, set<Perm>))
    requires c in g.edges && SlotsOk(kinds, g)
    ensures SlotsOk(kinds, g.(edges := g.edges[c := WithPerm(g.edges[c], w)]))
  {
    var g' := g.(edges := g.edges[c := WithPerm(g.edges[c], w)]);
    forall d, n, slot | d in g'.edges && Takes(kinds, g'.edges[d], n, slot)
      ensures HasLink(g', n, slot, d)
    {
      assert Takes(kinds, g.edges[d], n, slot);
    }
  }

  lemma {:induction false} PermParents(es: Edges, c: EdgeId, w: (set<Perm>, set<Perm>))
    requires c in es
    ensures forall n :: Parents(es[c := WithPerm(es[c], w)], n) == Parents(es, n)
  {
    forall n
      ensures Parents(es[c := WithPerm(es[c], w)], n) == Parents(es, n)
    {
    }
  }

  lemma {:induction false} FreshPutOn(kinds: Kinds, g: Graph, c: EdgeId, bs: Node)
    requires c in g.edges && g.edges[c].bs.None?
    ensures SetBs(kinds, g, c, Some(bs)) == PutOn(kinds, g, c, Some(bs))
  {
    assert g.edges[c := g.edges[c]] == g.edges;
  }

  lemma {:induction false} ConservedPerm(refcnt: multiset<Node>, held: multiset<Node>, es: Edges, log: seq<Record>,
        unrefs: multiset<Node>, c: EdgeId, w: (set<Perm>, set<Perm>))
    requires c in es && Conserved(refcnt, held, es, log, unrefs)
    ensures Conserved(refcnt, held, es[c := WithPerm(es[c], w)], log, unrefs)
  {
    PermParents(es, c, w);
  }

  lemma {:induction false} RemovedMore(log: seq<Record>, k: nat)
    requires k < |log|
    ensures RemovedIds(log[k..]) == RemovedIds(log[k + 1..]) + if log[k].Removed? then {log[k].c} else {}
  {
    var a, b := log[k..], log[k + 1..];
    assert forall i :: 0 <= i < |b| ==> b[i] == a[i + 1];
    assert a[0] == log[k];
    forall c | c in RemovedIds(a)
      ensures c in RemovedIds(b) || (log[k].Removed? && c == log[k].c)
    {
      var i :| 0 <= i < |a| && a[i].Removed? && a[i].c == c;
      if i > 0 {
        assert b[i - 1] == a[i];
      }
    }
    forall c | c in RemovedIds(b)
      ensures c in RemovedIds(a)
    {
      var i :| 0 <= i < |b| && b[i].Removed? && b[i].c == c;
      assert a[i + 1] == b[i];
    }
  }

  lemma {:induction false} RemovedNone(log: seq<Record>)
    ensures RemovedIds(log[|log|..]) == {}
  {
  }

  lemma {:induction false} RefreshMore(d: Drivers, es: Edges, n: Node, cs: set<EdgeId>, c: EdgeId, perm: set<Perm>,
        shared: set<Perm>)
    requires c in es && c !in cs
    ensures var es' := RefreshEdges(d, es, n, cs, perm, shared);
            && c in es' && es'[c] == es[c]
            && RefreshEdges(d, es, n, cs + {c}, perm, shared) ==
                es'[c := WithPerm(es[c], Wanted(d, n, Some(c), es[c].role, es[c].bs, perm, shared))]
  {
  }

  lemma {:induction false} RefreshNone(d: Drivers, es: Edges, n: Node, perm: set<Perm>, shared: set<Perm>)
    ensures RefreshEdges(d, es, n, {}, perm, shared) == es
  {
  }

  lemma {:induction false} AllEdges(es: Edges, n: Node)
    ensures Children(es, n) <= es.Keys
  {
  }

  lemma {:induction false} RefreshShape(d: Drivers, es: Edges, es': Edges, n: Node)
    requires SameShape(es, es')
    ensures SameShape(es, RefreshNode(d, es', n))
  {
  }

  lemma {:induction false} ShapeAcyclic(es: Edges, es': Edges)
    requires SameShape(es, es')
    ensures Acyclic(es') <==> Acyclic(es)
    ensures forall a, b :: Reach(es', a, b) <==> Reach(es, a, b)
  {
    SameLinks(es, es');
    forall a, b
      ensures Reach(es', a, b) <==> Reach(es, a, b)
    {
      if Reach(es', a, b) {
        var p :| PathFromTo(es', p, a, b);
        SubPath(es, es', p, a, b);
      }
      if Reach(es, a, b) {
        var p :| PathFromTo(es, p, a, b);
        SubPath(es', es, p, a, b);
      }
    }
  }

  lemma {:induction false} RootEdge(es: Edges, id: EdgeId, e: Edge)
    requires Acyclic(es) && id !in es && e.parent.None?
    ensures Acyclic(es[id := e])
  {
    var es' := es[id := e];
    forall a, b | Links(es', a, b)
      ensures Links(es, a, b)
    {
      var c :| Joins(es', c, a, b);
      assert Joins(es, c, a, b);
    }
    RootAcyclic(es, es');
  }

  /** An edge of `to` itself is not pointed to `to`. */
  lemma {:induction false} NotMoved(es: Edges, from: Node, to: Node, c: EdgeId)
    requires c in es && es[c].parent == Some(to) && es[c].bs.Some?
    ensures c in Redirect(es, Movable(es, from, to), to) && Redirect(es, Movable(es, from, to), to)[c] == es[c]
  {
    ReachSelf(es, to);
    assert Under(es, c, to);
  }

  lemma {:induction false} ShapeBs(es: Edges, es': Edges, c: EdgeId)
    requires SameShape(es, es') && c in es
    ensures c in es' && es'[c].bs == es[c].bs
  {
  }

  lemma {:induction false} StillDetachable(es: Edges, from: Node, to: Node, detach: Option<EdgeId>)
    requires from != to
    requires detach.Some? ==> detach.value in es && es[detach.value].bs == Some(to) && !es[detach.value].frozen
    ensures var es' := Redirect(es, Movable(es, from, to), to);
            detach.Some? ==> detach.value in es' && es'[detach.value] == es[detach.value]
  {
  }

  lemma {:induction false} LessAcyclicPoint(es: Edges, c: EdgeId)
    requires Acyclic(es) && c in es
    ensures Acyclic(es[c := es[c].(bs := None)])
  {
    LessAcyclic(es, es[c := es[c].(bs := None)]);
  }

  /** Permission records free no edge, and freed edges stay detached. */
  lemma {:induction false} MorePermRecords(es: Edges, es': Edges, log: seq<Record>, log': seq<Record>)
    requires CommitReady(es, log) && SameShape(es, es') && log <= log'
    requires forall i :: |log| <= i < |log'| ==> log'[i].PermSet? || log'[i].DriverTold?
    ensures CommitReady(es', log') && RemovedIds(log') == RemovedIds(log)
  {
    assert forall i :: 0 <= i < |log| ==> log'[i] == log[i];
    forall c | c in RemovedIds(log)
      ensures c in RemovedIds(log')
    {
      var i :| 0 <= i < |log| && log[i].Removed? && log[i].c == c;
      assert log'[i].Removed?;
    }
  }

  /** Freeing detached edges changes nothing that can be seen from a node. */
  lemma {:induction false} FreedUnseen(d: Drivers, es: Edges, es': Edges, log: seq<Record>, roots: seq<Node>)
    requires CommitReady(es, log) && Consistent(d, es, es', roots) && Acyclic(es')
    ensures var es'' := es' - RemovedIds(log);
            Acyclic(es'') && AllSuited(d, es'', roots)
  {
    var cs := RemovedIds(log);
    forall c | c in cs
      ensures c in es' && es'[c].bs.None?
    {
      var i :| 0 <= i < |log| && log[i].Removed? && log[i].c == c;
    }
    ShapeAcyclic(es, es');
    DetachedUnseen(d, es', cs);
    hide Settled, Passes, Reach;
  }

  lemma {:induction false} DetachedUnseen(d: Drivers, es: Edges, cs: set<EdgeId>)
    requires forall c :: c in cs ==> c in es && es[c].bs.None?
    ensures Acyclic(es) ==> Acyclic(es - cs)
    ensures forall a, b :: Reach(es - cs, a, b) <==> Reach(es, a, b)
    ensures forall n :: Settled(d, es - cs, n) <==> Settled(d, es, n)
    ensures forall n :: Passes(d, es - cs, n) <==> Passes(d, es, n)
  {
    var es' := es - cs;
    assert forall c, a, b :: Joins(es', c, a, b) <==> Joins(es, c, a, b);
    assert forall a, b :: Links(es', a, b) <==> Links(es, a, b);
    forall a, b
      ensures Reach(es', a, b) <==> Reach(es, a, b)
    {
      SameReach(es, es', a, b);
    }
    forall n
      ensures Settled(d, es', n) <==> Settled(d, es, n)
      ensures Passes(d, es', n) <==> Passes(d, es, n)
    {
      assert Parents(es', n) == Parents(es, n);
      assert Children(es', n) == Children(es, n);
      assert CumPerm(es', n) == CumPerm(es, n);
      assert CumShared(es', n) == CumShared(es, n);
    }
  }

  lemma {:induction false} FreedSlots(kinds: Kinds, g: Graph, c: EdgeId)
    requires c in g.edges && SlotsOk(kinds, g)
    ensures var g' := SetBs(kinds, g, c, None); SlotsOk(kinds, g'.(edges := g'.edges - {c}))
  {
    hide SlotsOk;
    TakeOffSlots(kinds, g, c);
    DropDetached(kinds, TakeOff(g, c), c);
  }

  lemma {:induction false} ConservedHold(refcnt: multiset<Node>, held: multiset<Node>, es: Edges, log: seq<Record>,
        unrefs: multiset<Node>, m: multiset<Node>)
    requires Conserved(refcnt, held, es, log, unrefs + m)
    ensures Conserved(refcnt, held + m, es, log, unrefs)
  {
  }
}
