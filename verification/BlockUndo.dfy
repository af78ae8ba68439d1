/**
 Changes to the block graph and how they are undone: every change adds a record to the transaction
 (`tran_add`), and an aborted transaction undoes the records newest first (`tran_abort`).
 */
module BlockUndo {
  import opened Options
  import opened BlockGraph
  import opened BlockPerms

  /** Where the hook of a parent keeps an edge besides its list of children. */
  datatype Slot = NoSlot | FileSlot | BackingSlot

  /** The driver flags `is_filter` and `filtered_child_is_backing` of a node. */
  datatype Kind = Kind(isFilter: bool, filteredIsBacking: bool)

  type Kinds = Node -> Kind

  /** The edges and, as `links`, the pointers `file` and `backing` of every node. */
  datatype Graph = Graph(edges: Edges, links: map<(Node, Slot), EdgeId>)

  datatype Record =
    | PermSet(c: EdgeId, perm: set<Perm>, shared: set<Perm>)
    | Replaced(c: EdgeId, was: Option<Node>)
    | Attached(c: EdgeId)
    | Removed(c: EdgeId)
    | DriverTold(n: Node)

  /** `bdrv_child_cb_attach`: the link that an edge of this role takes at a node of this kind. */
  function SlotOf(k: Kind, role: Role): Slot {
    if k.isFilter || role.filtered then
      if role.primary then (if k.filteredIsBacking then BackingSlot else FileSlot) else NoSlot
    else if role.cow then BackingSlot
    else if role.primary then FileSlot
    else NoSlot
  }

  /** The child is what `backing` points to: the COW child, or the filtered one of some filters. */
  predicate IsBacking(k: Kind, role: Role) {
    if k.isFilter || role.filtered then role.primary && k.filteredIsBacking else role.cow
  }

  /** The child is what `file` points to: the PRIMARY child that is not in `backing`. */
  predicate IsFile(k: Kind, role: Role) {
    role.primary && !IsBacking(k, role)
  }

  lemma {:induction false} SlotIs(k: Kind, role: Role)
    ensures SlotOf(k, role) == BackingSlot <==> IsBacking(k, role)
    ensures SlotOf(k, role) == FileSlot <==> IsFile(k, role)
  {
  }

  /** The link that edge `e` takes at its parent. */
  function EdgeSlot(kinds: Kinds, e: Edge): Slot {
    if e.parent.Some? then SlotOf(kinds(e.parent.value), e.role) else NoSlot
  }

  function Hook(kinds: Kinds, g: Graph, c: EdgeId): Graph
    requires c in g.edges
  {
    var e := g.edges[c];
    var slot := EdgeSlot(kinds, e);
    if slot == NoSlot then g else g.(links := g.links[(e.parent.value, slot) := c])
  }

  predicate HasLink(g: Graph, n: Node, slot: Slot, c: EdgeId) {
    (n, slot) in g.links && g.links[(n, slot)] == c
  }

  /** `bdrv_child_cb_detach` */
  function Unhook(g: Graph, c: EdgeId): Graph
    requires c in g.edges
  {
    var parent := g.edges[c].parent;
    if parent.None? then g
    else if HasLink(g, parent.value, BackingSlot, c) then g.(links := g.links - {(parent.value, BackingSlot)})
    else if HasLink(g, parent.value, FileSlot, c) then g.(links := g.links - {(parent.value, FileSlot)})
    else g
  }

  function Point(g: Graph, c: EdgeId, bs: Option<Node>): Graph
    requires c in g.edges
  {
    g.(edges := g.edges[c := g.edges[c].(bs := bs)])
  }

  function TakeOff(g: Graph, c: EdgeId): Graph
    requires c in g.edges
  {
    Point(if g.edges[c].bs.Some? then Unhook(g, c) else g, c, None)
  }

  function PutOn(kinds: Kinds, g: Graph, c: EdgeId, bs: Option<Node>): Graph
    requires c in g.edges
  {
    if bs.None? then g else Hook(kinds, Point(g, c, bs), c)
  }

  /** `bdrv_replace_child_noperm` */
  function SetBs(kinds: Kinds, g: Graph, c: EdgeId, bs: Option<Node>): Graph
    requires c in g.edges
  {
    PutOn(kinds, TakeOff(g, c), c, bs)
  }

  /** Edge `e` is attached to node `n` and belongs into the link `slot` there. */
  predicate Takes(kinds: Kinds, e: Edge, n: Node, slot: Slot) {
    && e.bs.Some? && e.parent == Some(n)
    && match slot
       case BackingSlot => IsBacking(kinds(n), e.role)
       case FileSlot => IsFile(kinds(n), e.role)
       case NoSlot => false
  }

  /** The links of a node are those of its attached edges that want to be there. */
  ghost predicate SlotsOk(kinds: Kinds, g: Graph) {
    && (forall n, slot :: (n, slot) in g.links ==>
          g.links[(n, slot)] in g.edges && Takes(kinds, g.edges[g.links[(n, slot)]], n, slot))
    && (forall c, n, slot :: c in g.edges && Takes(kinds, g.edges[c], n, slot) ==> HasLink(g, n, slot, c))
  }

  /** The link that `e` would take is free. */
  predicate SlotFree(kinds: Kinds, g: Graph, e: Edge) {
    EdgeSlot(kinds, e) == NoSlot || (e.parent.value, EdgeSlot(kinds, e)) !in g.links
  }

  lemma {:induction false} UnhookIs(kinds: Kinds, g: Graph, c: EdgeId)
    requires c in g.edges && SlotsOk(kinds, g) && g.edges[c].bs.Some?
    ensures var e := g.edges[c]; var slot := EdgeSlot(kinds, e);
            Unhook(g, c) == if slot == NoSlot then g else g.(links := g.links - {(e.parent.value, slot)})
  {
    var e := g.edges[c];
    if e.parent.Some? {
      assert EdgeSlot(kinds, e) != NoSlot ==> Takes(kinds, e, e.parent.value, EdgeSlot(kinds, e));
    }
  }

  /** After an edge is taken off, its link is free and the others are in order. */
  lemma {:induction false} TakeOffSlots(kinds: Kinds, g: Graph, c: EdgeId)
    requires c in g.edges && SlotsOk(kinds, g)
    ensures TakeOff(g, c).edges == g.edges[c := g.edges[c].(bs := None)]
    ensures SlotsOk(kinds, TakeOff(g, c))
    ensures g.edges[c].bs.Some? ==> SlotFree(kinds, TakeOff(g, c), TakeOff(g, c).edges[c])
  {
    if g.edges[c].bs.Some? {
      UnhookIs(kinds, g, c);
    }
  }

  lemma {:induction false} PutOnSlots(kinds: Kinds, g: Graph, c: EdgeId, bs: Option<Node>)
    requires c in g.edges && SlotsOk(kinds, g) && g.edges[c].bs.None? && SlotFree(kinds, g, g.edges[c])
    ensures SlotsOk(kinds, PutOn(kinds, g, c, bs))
    ensures TakeOff(PutOn(kinds, g, c, bs), c) == g
  {
    var g' := PutOn(kinds, g, c, bs);
    var e := g.edges[c];
    if bs.Some? {
      assert g'.edges[c := e] == g.edges;
      var slot := EdgeSlot(kinds, e);
      if slot != NoSlot {
        assert g'.links - {(e.parent.value, slot)} == g.links;
      }
    } else {
      assert g.edges[c := e] == g.edges;
    }
  }

  lemma {:induction false} TakePut(kinds: Kinds, g: Graph, c: EdgeId)
    requires c in g.edges && SlotsOk(kinds, g)
    ensures PutOn(kinds, TakeOff(g, c), c, g.edges[c].bs) == g
  {
    var e := g.edges[c];
    assert g.edges[c := e] == g.edges;
    if e.bs.Some? {
      UnhookIs(kinds, g, c);
      var slot := EdgeSlot(kinds, e);
      if slot != NoSlot {
        assert Takes(kinds, e, e.parent.value, slot);
        assert (g.links - {(e.parent.value, slot)})[(e.parent.value, slot) := c] == g.links;
      }
    }
  }

  /** Pointing an edge back undoes pointing it elsewhere, links included. */
  lemma {:induction false} SetBsBack(kinds: Kinds, g: Graph, c: EdgeId, bs: Option<Node>)
    requires c in g.edges && SlotsOk(kinds, g) && g.edges[c].bs.Some?
    ensures SlotsOk(kinds, SetBs(kinds, g, c, bs))
    ensures SetBs(kinds, SetBs(kinds, g, c, bs), c, g.edges[c].bs) == g
  {
    hide Hook, Unhook, SlotsOk;
    TakeOffSlots(kinds, g, c);
    TakePut(kinds, g, c);
    PutOnSlots(kinds, TakeOff(g, c), c, bs);
  }

  // ---------------------------------------------------------------- the transaction

  /** The record can be undone in this state. */
  predicate RecordOk(g: Graph, r: Record) {
    match r
    case PermSet(c, _, _) => c in g.edges
    case Replaced(c, _) => c in g.edges
    case Attached(c) => c in g.edges && g.edges[c].bs.Some?
    case Removed(c) => c in g.edges
    case DriverTold(_) => true
  }

  /** The `abort` functions of the records. */
  function Undo(kinds: Kinds, g: Graph, r: Record): Graph
    requires RecordOk(g, r)
  {
    match r
    case PermSet(c, perm, shared) => g.(edges := g.edges[c := WithPerm(g.edges[c], (perm, shared))])
    case Replaced(c, bs) => SetBs(kinds, g, c, bs)
    case Attached(c) => var g1 := SetBs(kinds, g, c, None); g1.(edges := g1.edges - {c})
    case Removed(_) => g
    case DriverTold(_) => g
  }

  /** All records can be undone one after the other, newest first, and that leads to `base`. */
  ghost predicate Undoes(kinds: Kinds, g: Graph, log: seq<Record>, base: Graph)
    decreases |log|
  {
    if log == [] then g == base
    else
      var r := log[|log| - 1];
      RecordOk(g, r) && Undoes(kinds, Undo(kinds, g, r), log[..|log| - 1], base)
  }

  /** A change whose record undoes it keeps the way back. */
  lemma {:induction false} UndoesMore(kinds: Kinds, g: Graph, g': Graph, log: seq<Record>, r: Record, base: Graph)
    requires Undoes(kinds, g, log, base) && RecordOk(g', r) && Undo(kinds, g', r) == g
    ensures Undoes(kinds, g', log + [r], base)
  {
    assert (log + [r])[..|log|] == log;
  }

  lemma {:induction false} UndoReplaced(kinds: Kinds, g: Graph, c: EdgeId, bs: Option<Node>)
    requires c in g.edges && SlotsOk(kinds, g) && g.edges[c].bs.Some?
    ensures var g', r := SetBs(kinds, g, c, bs), Replaced(c, g.edges[c].bs);
            RecordOk(g', r) && Undo(kinds, g', r) == g
  {
    SetBsBack(kinds, g, c, bs);
  }

  lemma {:induction false} UndoPermSet(kinds: Kinds, g: Graph, c: EdgeId, w: (set<Perm>, set<Perm>))
    requires c in g.edges
    ensures var e := g.edges[c]; var g', r := g.(edges := g.edges[c := WithPerm(e, w)]), PermSet(c, e.perm, e.shared);
            RecordOk(g', r) && Undo(kinds, g', r) == g
  {
    assert g.edges[c := g.edges[c]] == g.edges;
  }

  /** A new edge, put on. */
  function AddEdge(kinds: Kinds, g: Graph, c: EdgeId, e: Edge, bs: Node): Graph {
    PutOn(kinds, g.(edges := g.edges[c := e.(bs := None)]), c, Some(bs))
  }

  lemma {:induction false} UndoAttached(kinds: Kinds, g: Graph, c: EdgeId, e: Edge, bs: Node)
    requires c !in g.edges && SlotsOk(kinds, g) && SlotFree(kinds, g, e)
    ensures var g' := AddEdge(kinds, g, c, e, bs);
            && g'.edges == g.edges[c := e.(bs := Some(bs))] && SlotsOk(kinds, g')
            && RecordOk(g', Attached(c)) && Undo(kinds, g', Attached(c)) == g
  {
    var g0 := g.(edges := g.edges[c := e.(bs := None)]);
    assert SlotsOk(kinds, g0) && SlotFree(kinds, g0, g0.edges[c]);
    PutOnSlots(kinds, g0, c, Some(bs));
    assert g0.edges - {c} == g.edges;
    assert g0.edges[c := e.(bs := Some(bs))] == g.edges[c := e.(bs := Some(bs))];
  }

  // ---------------------------------------------------------------- references

  /** The references that open records hold: the nodes that edges were pointed away from. */
  function LogRefs(log: seq<Record>): multiset<Node> {
    if log == [] then multiset{}
    else
      var r := log[|log| - 1];
      LogRefs(log[..|log| - 1]) + if r.Replaced? && r.was.Some? then multiset{r.was.value} else multiset{}
  }

  /** Every reference to a node is held by a caller, an edge, an open record or a scheduled unref. */
  ghost predicate Conserved(refcnt: multiset<Node>, held: multiset<Node>, es: Edges, log: seq<Record>,
        unrefs: multiset<Node>) {
    forall n :: refcnt[n] == held[n] + |Parents(es, n)| + LogRefs(log)[n] + unrefs[n]
  }

  function RefOf(bs: Option<Node>): multiset<Node> {
    if bs.Some? then multiset{bs.value} else multiset{}
  }

  lemma {:induction false} ParentsAdd(es: Edges, c: EdgeId, e: Edge, n: Node)
    requires c !in es
    ensures |Parents(es[c := e], n)| == |Parents(es, n)| + RefOf(e.bs)[n]
  {
    assert Parents(es[c := e], n) == if e.bs == Some(n) then Parents(es, n) + {c} else Parents(es, n);
  }

  lemma {:induction false} ParentsDrop(es: Edges, c: EdgeId, n: Node)
    requires c in es
    ensures |Parents(es - {c}, n)| + RefOf(es[c].bs)[n] == |Parents(es, n)|
  {
    var rest := Parents(es, n) - {c};
    assert Parents(es, n) == if es[c].bs == Some(n) then rest + {c} else rest;
    assert Parents(es - {c}, n) == rest;
  }

  /** Pointing an edge elsewhere moves one reference. */
  lemma {:induction false} ParentsMove(es: Edges, c: EdgeId, bs: Option<Node>, n: Node)
    requires c in es
    ensures |Parents(es[c := es[c].(bs := bs)], n)| + RefOf(es[c].bs)[n] == |Parents(es, n)| + RefOf(bs)[n]
  {
    hide Parents;
    var e' := es[c].(bs := bs);
    assert es[c := e'] == (es - {c})[c := e'];
    ParentsDrop(es, c, n);
    ParentsAdd(es - {c}, c, e', n);
  }

  lemma {:induction false} LogRefsSnoc(log: seq<Record>, r: Record)
    ensures LogRefs(log + [r]) == LogRefs(log) + if r.Replaced? then RefOf(r.was) else multiset{}
  {
    assert (log + [r])[..|log|] == log;
  }

  lemma {:induction false} ConservedMove(refcnt: multiset<Node>, held: multiset<Node>, es: Edges, log: seq<Record>,
        unrefs: multiset<Node>, c: EdgeId, bs: Option<Node>)
    requires c in es && Conserved(refcnt, held, es, log, unrefs)
    ensures Conserved(refcnt + RefOf(bs), held, es[c := es[c].(bs := bs)], log + [Replaced(c, es[c].bs)], unrefs)
  {
    hide LogRefs, Parents;
    LogRefsSnoc(log, Replaced(c, es[c].bs));
    forall n
      ensures (refcnt + RefOf(bs))[n] == held[n] + |Parents(es[c := es[c].(bs := bs)], n)|
        + LogRefs(log + [Replaced(c, es[c].bs)])[n] + unrefs[n]
    {
      ParentsMove(es, c, bs, n);
    }
  }

  lemma {:induction false} ConservedMoveBack(refcnt: multiset<Node>, held: multiset<Node>, es: Edges,
        log: seq<Record>, unrefs: multiset<Node>, c: EdgeId, was: Option<Node>)
    requires c in es && Conserved(refcnt, held, es, log + [Replaced(c, was)], unrefs)
    ensures RefOf(es[c].bs) <= refcnt
    ensures Conserved(refcnt - RefOf(es[c].bs), held, es[c := es[c].(bs := was)], log, unrefs)
  {
    hide LogRefs;
    LogRefsSnoc(log, Replaced(c, was));
    if es[c].bs.Some? {
      assert c in Parents(es, es[c].bs.value);
    }
    hide Parents;
    forall n
      ensures (refcnt - RefOf(es[c].bs))[n] == held[n] + |Parents(es[c := es[c].(bs := was)], n)| + LogRefs(log)[n]
        + unrefs[n]
    {
      ParentsMove(es, c, was, n);
    }
  }

  lemma {:induction false} ConservedAdd(refcnt: multiset<Node>, held: multiset<Node>, es: Edges, log: seq<Record>,
        unrefs: multiset<Node>, c: EdgeId, e: Edge, bs: Node)
    requires c !in es && Conserved(refcnt, held, es, log, unrefs)
    ensures Conserved(refcnt + multiset{bs}, held, es[c := e.(bs := Some(bs))], log + [Attached(c)], unrefs)
  {
    hide LogRefs, Parents;
    LogRefsSnoc(log, Attached(c));
    forall n
      ensures (refcnt + multiset{bs})[n] == held[n] + |Parents(es[c := e.(bs := Some(bs))], n)|
        + LogRefs(log + [Attached(c)])[n] + unrefs[n]
    {
      ParentsAdd(es, c, e.(bs := Some(bs)), n);
    }
  }

  lemma {:induction false} ConservedDrop(refcnt: multiset<Node>, held: multiset<Node>, es: Edges, log: seq<Record>,
        unrefs: multiset<Node>, c: EdgeId)
    requires c in es && Conserved(refcnt, held, es, log, unrefs)
    ensures Conserved(refcnt, held, es - {c}, log, unrefs + RefOf(es[c].bs))
  {
    hide LogRefs, Parents;
    forall n
      ensures refcnt[n] == held[n] + |Parents(es - {c}, n)| + LogRefs(log)[n] + (unrefs + RefOf(es[c].bs))[n]
    {
      ParentsDrop(es, c, n);
    }
  }

  lemma {:induction false} ConservedOther(refcnt: multiset<Node>, held: multiset<Node>, es: Edges, log: seq<Record>,
        unrefs: multiset<Node>, r: Record)
    requires !r.Replaced?
    ensures Conserved(refcnt, held, es, log + [r], unrefs) <==> Conserved(refcnt, held, es, log, unrefs)
  {
    hide LogRefs, Parents;
    LogRefsSnoc(log, r);
    assert LogRefs(log) + multiset{} == LogRefs(log);
  }

  lemma {:induction false} ConservedCommit(refcnt: multiset<Node>, held: multiset<Node>, es: Edges, log: seq<Record>,
        unrefs: multiset<Node>, r: Record)
    requires r.Replaced? && Conserved(refcnt, held, es, log + [r], unrefs)
    ensures Conserved(refcnt, held, es, log, unrefs + RefOf(r.was))
  {
    hide LogRefs, Parents;
    LogRefsSnoc(log, r);
  }

  /** Edges that a committed transaction frees. */
  function RemovedIds(log: seq<Record>): set<EdgeId> {
    set i | 0 <= i < |log| && log[i].Removed? :: log[i].c
  }

  /** Every edge to be freed is detached, and freed once. */
  ghost predicate CommitReady(es: Edges, log: seq<Record>) {
    && (forall i :: 0 <= i < |log| && log[i].Removed? ==> log[i].c in es && es[log[i].c].bs.None?)
    && (forall i, j :: 0 <= i < j < |log| && log[i].Removed? && log[j].Removed? ==> log[i].c != log[j].c)
  }

  lemma {:induction false} DropDetached(kinds: Kinds, g: Graph, c: EdgeId)
    requires c in g.edges && g.edges[c].bs.None? && SlotsOk(kinds, g)
    ensures SlotsOk(kinds, g.(edges := g.edges - {c}))
  {
  }
}
