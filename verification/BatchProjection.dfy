/** The batch projection: fold all events of a root prompt, then resolve parent edges once more. */
module BatchProjection {
  import opened Collections
  import opened EventDag

  datatype Node = Node(fields: Fields, children: seq<Id>)

  /** A Python dict: nodes by id, and the ids in insertion order. */
  datatype Graph = Graph(nodes: map<Id, Node>, order: seq<Id>)

  /** Append c to the children of its parent, if the parent is there and does not list it yet. */
  function Linked(nodes: map<Id, Node>, parent: Option<Id>, c: Id): map<Id, Node> {
    if parent.Some? && parent.value != "" && parent.value in nodes && c !in nodes[parent.value].children then
      var p := nodes[parent.value];
      nodes[parent.value := p.(children := p.children + [c])]
    else nodes
  }

  function FoldStep(g: Graph, e: Event): Graph {
    var before := if e.task in g.nodes then Some(g.nodes[e.task].fields) else None;
    var children := if e.task in g.nodes then g.nodes[e.task].children else [];
    var f := BatchApplied(before, e);
    var nodes := g.nodes[e.task := Node(f, children)];
    Graph(if e.kind.TaskDrafted? then Linked(nodes, f.parent, e.task) else nodes,
          if e.task in g.nodes then g.order else g.order + [e.task])
  }

  function Folded(es: seq<Event>, n: nat): Graph
    requires n <= |es|
  {
    if n == 0 then Graph(map[], []) else FoldStep(Folded(es, n - 1), es[n - 1])
  }

  /** The second pass over the first k nodes in order. */
  function Resolved(nodes: map<Id, Node>, order: seq<Id>, k: nat): map<Id, Node>
    requires k <= |order|
  {
    if k == 0 then nodes
    else
      var m := Resolved(nodes, order, k - 1);
      if order[k - 1] in m then Linked(m, m[order[k - 1]].fields.parent, order[k - 1]) else m
  }

  function Projected(es: seq<Event>): map<Id, Node> {
    var g := Folded(es, |es|);
    Resolved(g.nodes, g.order, |g.order|)
  }

  /** One row of the first pass. */
  method FoldRow(nodes: map<Id, Node>, order: seq<Id>, e: Event) returns (nodes': map<Id, Node>, order': seq<Id>)
    ensures Graph(nodes', order') == FoldStep(Graph(nodes, order), e)
  {
    nodes', order' := nodes, order;
    if e.task !in nodes {
      nodes' := nodes'[e.task := Node(NewFields(GetOr(e.payload.title, "Unknown"), e.ts), [])];
      order' := order' + [e.task];
    }
    var node := nodes'[e.task];
    var f := Applied(node.fields, e);
    match e.kind {
      case TaskDrafted => f := f.(parent := if e.payload.parent == Some("") then None else e.payload.parent);
      case LeaseGranted => f := f.(gateway := Some(e.source));
      case _ =>
    }
    nodes' := nodes'[e.task := node.(fields := f)];
    assert nodes' == nodes[e.task := Node(f, node.children)];
    if e.kind.TaskDrafted? && f.parent.Some? && f.parent.value in nodes' {
      var parent := nodes'[f.parent.value];
      if e.task !in parent.children {
        nodes' := nodes'[f.parent.value := parent.(children := parent.children + [e.task])];
      }
    }
  }

  /** No node has the empty string for its parent: the fold stores None instead. */
  ghost predicate ParentsNamed(nodes: map<Id, Node>) { forall t :: t in nodes ==> nodes[t].fields.parent != Some("") }

  method ResolveEdges(folded: map<Id, Node>, order: seq<Id>) returns (nodes: map<Id, Node>)
    requires ParentsNamed(folded) && forall k :: 0 <= k < |order| ==> order[k] in folded
    ensures nodes == Resolved(folded, order, |order|)
  {
    nodes := folded;
    for k := 0 to |order|
      invariant nodes == Resolved(folded, order, k)
      invariant forall t :: t in folded ==> t in nodes && nodes[t].fields == folded[t].fields
    {
      var parentId := nodes[order[k]].fields.parent;
      if parentId.Some? && parentId.value in nodes {
        var parent := nodes[parentId.value];
        if order[k] !in parent.children {
          nodes := nodes[parentId.value := parent.(children := parent.children + [order[k]])];
        }
      }
    }
  }

  method ProjectTaskDag(rows: seq<Event>) returns (nodes: map<Id, Node>, order: seq<Id>)
    ensures nodes == Projected(rows)
    ensures order == Folded(rows, |rows|).order
  {
    nodes, order := map[], [];
    for i := 0 to |rows|
      invariant Graph(nodes, order) == Folded(rows, i)
    {
      nodes, order := FoldRow(nodes, order, rows[i]);
    }
    forall t | t in nodes ensures nodes[t].fields.parent != Some("") {
      FoldKeys(rows, |rows|, t);
      BatchFieldsIffSeen(rows, |rows|, t);
    }
    forall k | 0 <= k < |order| ensures order[k] in nodes {
      FoldKeys(rows, |rows|, order[k]);
    }
    nodes := ResolveEdges(nodes, order);
  }

  // ---- locality: a node is its own events' doing ----

  /** Node t exists exactly when t was seen, and apart from its children it is the fold of its own events. */
  lemma {:induction false} FoldKeys(es: seq<Event>, n: nat, t: Id)
    requires n <= |es|
    ensures var g := Folded(es, n);
            && (t in g.nodes <==> BatchFields(es, n, t).Some?)
            && (t in g.nodes <==> t in g.order)
            && (t in g.nodes ==> g.nodes[t].fields == BatchFields(es, n, t).value)
  {
    if n == 0 {
    } else {
      FoldKeys(es, n - 1, t);
    }
  }

  lemma {:induction false} OrderDistinct(es: seq<Event>, n: nat)
    requires n <= |es|
    ensures Distinct(Folded(es, n).order)
  {
    if n == 0 {
    } else {
      OrderDistinct(es, n - 1);
      FoldKeys(es, n - 1, es[n - 1].task);
    }
  }

  lemma {:induction false} ResolveKeepsFields(nodes: map<Id, Node>, order: seq<Id>, k: nat, t: Id)
    requires k <= |order|
    ensures var m := Resolved(nodes, order, k);
            && (t in m <==> t in nodes)
            && (t in m ==> m[t].fields == nodes[t].fields)
  {
    if k == 0 {
    } else {
      ResolveKeepsFields(nodes, order, k - 1, t);
    }
  }

  lemma ProjectionIsLocal(es: seq<Event>, t: Id)
    ensures var m := Projected(es);
            && (t in m <==> Seen(es, |es|, t))
            && (t in m ==> Some(m[t].fields) == BatchFields(es, |es|, t))
  {
    FoldKeys(es, |es|, t);
    BatchFieldsIffSeen(es, |es|, t);
    var g := Folded(es, |es|);
    ResolveKeepsFields(g.nodes, g.order, |g.order|, t);
  }

  // ---- edges ----

  /** Event j drafts c under p, and p was seen by then. */
  ghost predicate DraftsUnder(es: seq<Event>, j: nat, p: Id, c: Id)
    requires j < |es|
  {
    es[j].task == c && es[j].kind.TaskDrafted? && p != "" && es[j].payload.parent == Some(p) && Seen(es, j + 1, p)
  }

  ghost predicate EverDraftedUnder(es: seq<Event>, n: nat, p: Id, c: Id)
    requires n <= |es|
  {
    exists j :: 0 <= j < n && DraftsUnder(es, j, p, c)
  }

  /** Event j drafts c. */
  predicate Drafts(es: seq<Event>, j: nat, c: Id)
    requires j < |es|
  {
    es[j].task == c && es[j].kind.TaskDrafted?
  }

  /** Event j is the last draft of c among the first n events. */
  predicate LastDraft(es: seq<Event>, j: nat, n: nat, c: Id) {
    j < n <= |es| && Drafts(es, j, c) && forall k :: j < k < n ==> !Drafts(es, k, c)
  }

  /** The last draft of c names p. */
  ghost predicate FinalParent(es: seq<Event>, p: Id, c: Id) {
    p != "" && exists j: nat :: LastDraft(es, j, |es|, c) && es[j].payload.parent == Some(p)
  }

  /** The edges of the finished projection, read off the stream. */
  ghost predicate BatchEdge(es: seq<Event>, p: Id, c: Id) {
    EverDraftedUnder(es, |es|, p, c) || (FinalParent(es, p, c) && Seen(es, |es|, p))
  }

  /** The parent on record is the one named by the last draft. */
  lemma {:induction false} ParentFromDraft(es: seq<Event>, n: nat, j: nat, c: Id)
    requires n <= |es| && LastDraft(es, j, n, c)
    ensures BatchFields(es, n, c).Some? && BatchFields(es, n, c).value.parent == Truthy(es[j].payload.parent)
  {
    if j < n - 1 {
      ParentFromDraft(es, n - 1, j, c);
      assert !Drafts(es, n - 1, c);
    }
  }

  lemma {:induction false} ParentWasDrafted(es: seq<Event>, n: nat, p: Id, c: Id) returns (j: nat)
    requires n <= |es| && BatchFields(es, n, c).Some? && BatchFields(es, n, c).value.parent == Some(p)
    ensures LastDraft(es, j, n, c) && es[j].payload.parent == Some(p) && p != ""
  {
    if es[n - 1].task == c && es[n - 1].kind.TaskDrafted? {
      j := n - 1;
    } else {
      j := ParentWasDrafted(es, n - 1, p, c);
    }
  }

  lemma FinalParentIsOnRecord(es: seq<Event>, p: Id, c: Id)
    ensures FinalParent(es, p, c) <==> BatchFields(es, |es|, c).Some? && BatchFields(es, |es|, c).value.parent == Some(p)
  {
    if FinalParent(es, p, c) {
      var j: nat :| LastDraft(es, j, |es|, c) && es[j].payload.parent == Some(p);
      ParentFromDraft(es, |es|, j, c);
    }
    if BatchFields(es, |es|, c).Some? && BatchFields(es, |es|, c).value.parent == Some(p) {
      var j := ParentWasDrafted(es, |es|, p, c);
    }
  }

  predicate NoRepeat(xs: seq<Id>) {
    xs == [] || (xs[|xs| - 1] !in xs[..|xs| - 1] && NoRepeat(xs[..|xs| - 1]))
  }

  lemma {:induction false} NoRepeatMeansDistinct(xs: seq<Id>)
    requires NoRepeat(xs)
    ensures Distinct(xs)
  {
    if xs == [] {
    } else {
      NoRepeatMeansDistinct(xs[..|xs| - 1]);
      forall i, j | 0 <= i < j < |xs| ensures xs[i] != xs[j] {
        if j == |xs| - 1 {
          assert xs[i] in xs[..|xs| - 1];
        } else {
          assert xs[i] == xs[..|xs| - 1][i] && xs[j] == xs[..|xs| - 1][j];
        }
      }
    }
  }

  lemma LinkedChildren(nodes: map<Id, Node>, parent: Option<Id>, x: Id, p: Id, c: Id)
    requires p in nodes && NoRepeat(nodes[p].children)
    ensures var m := Linked(nodes, parent, x);
            && p in m && m.Keys == nodes.Keys && NoRepeat(m[p].children)
            && (c in m[p].children <==> c in nodes[p].children || (c == x && p != "" && parent == Some(p)))
  {
    var m, xs := Linked(nodes, parent, x), nodes[p].children;
    if parent == Some(p) && p != "" && x !in xs {
      var ys := xs + [x];
      assert m[p].children == ys;
      assert ys[..|ys| - 1] == xs && ys[|ys| - 1] == x;
      assert NoRepeat(ys);
    } else {
      assert m[p].children == xs;
    }
  }

  lemma {:induction false} FoldedChildren(es: seq<Event>, n: nat, p: Id, c: Id)
    requires n <= |es| && Seen(es, n, p)
    ensures var g := Folded(es, n);
            && p in g.nodes && NoRepeat(g.nodes[p].children)
            && (c in g.nodes[p].children <==> EverDraftedUnder(es, n, p, c))
  {
    var e, g := es[n - 1], Folded(es, n - 1);
    FoldKeys(es, n - 1, p);
    BatchFieldsIffSeen(es, n - 1, p);
    if Seen(es, n - 1, p) {
      FoldedChildren(es, n - 1, p, c);
    } else {
      NotDraftedBeforeSeen(es, n - 1, p, c);
    }
    FoldStepChildren(g, e, p, c);
    DraftedUnderStep(es, n, p, c);
  }

  lemma NotDraftedBeforeSeen(es: seq<Event>, n: nat, p: Id, c: Id)
    requires n <= |es| && !Seen(es, n, p)
    ensures !EverDraftedUnder(es, n, p, c)
  {
    forall j | 0 <= j < n ensures !DraftsUnder(es, j, p, c) {
      if DraftsUnder(es, j, p, c) {
        SeenStays(es, j + 1, n, p);
      }
    }
  }

  lemma DraftedUnderStep(es: seq<Event>, n: nat, p: Id, c: Id)
    requires 0 < n <= |es|
    ensures EverDraftedUnder(es, n, p, c) <==> EverDraftedUnder(es, n - 1, p, c) || DraftsUnder(es, n - 1, p, c)
  {
    if EverDraftedUnder(es, n - 1, p, c) {
      var j :| 0 <= j < n - 1 && DraftsUnder(es, j, p, c);
      assert 0 <= j < n && DraftsUnder(es, j, p, c);
    }
  }

  function ChildrenIn(g: Graph, p: Id): seq<Id> {
    if p in g.nodes then g.nodes[p].children else []
  }

  lemma FoldStepChildren(g: Graph, e: Event, p: Id, c: Id)
    requires NoRepeat(ChildrenIn(g, p)) && (p in g.nodes || p == e.task)
    ensures var h := FoldStep(g, e);
            && p in h.nodes && NoRepeat(h.nodes[p].children)
            && (c in h.nodes[p].children <==>
                  c in ChildrenIn(g, p) || (c == e.task && e.kind.TaskDrafted? && p != "" && e.payload.parent == Some(p)))
  {
    var f := BatchApplied(if e.task in g.nodes then Some(g.nodes[e.task].fields) else None, e);
    var nodes := g.nodes[e.task := Node(f, ChildrenIn(g, e.task))];
    LinkedChildren(nodes, f.parent, e.task, p, c);
  }

  lemma {:induction false} ResolvedChildren(nodes: map<Id, Node>, order: seq<Id>, k: nat, p: Id, c: Id)
    requires k <= |order| && p in nodes && NoRepeat(nodes[p].children)
    requires forall t :: t in order ==> t in nodes
    ensures var m := Resolved(nodes, order, k);
            && p in m && NoRepeat(m[p].children)
            && (c in m[p].children <==>
                  c in nodes[p].children || (c in order[..k] && p != "" && nodes[c].fields.parent == Some(p)))
  {
    if k == 0 {
    } else {
      ResolvedChildren(nodes, order, k - 1, p, c);
      var m, x := Resolved(nodes, order, k - 1), order[k - 1];
      ResolveKeepsFields(nodes, order, k - 1, x);
      assert order[..k] == order[..k - 1] + [x];
      assert x in order && x in m;
      LinkedChildren(m, m[x].fields.parent, x, p, c);
    }
  }

  /** After the second pass the children of a node are exactly its edges, each listed once. */
  lemma ChildrenAreEdges(es: seq<Event>, p: Id, c: Id)
    requires p in Projected(es)
    ensures c in Projected(es)[p].children <==> BatchEdge(es, p, c)
    ensures Distinct(Projected(es)[p].children)
  {
    ProjectionIsLocal(es, p);
    var g := Folded(es, |es|);
    FoldedChildren(es, |es|, p, c);
    forall t | t in g.order ensures t in g.nodes {
      FoldKeys(es, |es|, t);
    }
    ResolvedChildren(g.nodes, g.order, |g.order|, p, c);
    assert g.order[..|g.order|] == g.order;
    FoldKeys(es, |es|, c);
    FinalParentIsOnRecord(es, p, c);
    NoRepeatMeansDistinct(Projected(es)[p].children);
  }

  // ---- tasks drafted at most once ----

  ghost predicate DraftedOnce(es: seq<Event>) {
    forall i, j :: 0 <= i < j < |es| && es[i].kind.TaskDrafted? && es[j].kind.TaskDrafted? ==> es[i].task != es[j].task
  }

  lemma {:induction false} LastDraftOf(es: seq<Event>, j: nat, c: Id) returns (k: nat)
    requires j < |es| && Drafts(es, j, c)
    ensures j <= k && LastDraft(es, k, |es|, c)
    decreases |es| - j
  {
    if forall l :: j < l < |es| ==> !Drafts(es, l, c) {
      k := j;
    } else {
      var l :| j < l < |es| && Drafts(es, l, c);
      k := LastDraftOf(es, l, c);
    }
  }

  /** Draft j named a seen parent, and its task's last draft k names another or none. */
  ghost predicate Overruled(es: seq<Event>, j: nat, k: nat)
    requires j < |es|
  {
    && Drafts(es, j, es[j].task) && es[j].payload.parent.Some?
    && es[j].payload.parent.value != "" && Seen(es, j + 1, es[j].payload.parent.value)
    && LastDraft(es, k, |es|, es[j].task) && es[k].payload.parent != es[j].payload.parent
  }

  /** c is listed under p if and only if p is the parent on record. */
  ghost predicate ListedRight(es: seq<Event>, p: Id, c: Id)
    requires p in Projected(es)
  {
    c in Projected(es)[p].children <==> c in Projected(es) && Projected(es)[c].fields.parent == Some(p)
  }

  lemma ListedRightIff(es: seq<Event>, p: Id, c: Id)
    requires p in Projected(es)
    ensures Seen(es, |es|, p)
    ensures ListedRight(es, p, c) <==> (BatchEdge(es, p, c) ==> FinalParent(es, p, c))
  {
    ChildrenAreEdges(es, p, c);
    ProjectionIsLocal(es, p);
    ProjectionIsLocal(es, c);
    FinalParentIsOnRecord(es, p, c);
    BatchFieldsIffSeen(es, |es|, c);
  }

  /** children(p) is the set of nodes whose parent is p, for every p, exactly when no such draft was overruled. */
  lemma ChildrenMatchParentsIff(es: seq<Event>)
    requires forall i :: 0 <= i < |es| ==> es[i].task != ""
    ensures (forall p, c :: p in Projected(es) ==> ListedRight(es, p, c)) <==> (forall j, k :: 0 <= j < |es| ==> !Overruled(es, j, k))
  {
    if j, k :| 0 <= j < |es| && Overruled(es, j, k) {
      var p, c := es[j].payload.parent.value, es[j].task;
      OverruledEdge(es, j, k);
      ProjectionIsLocal(es, p);
      ListedRightIff(es, p, c);
    } else {
      forall p, c | p in Projected(es) ensures ListedRight(es, p, c) {
        ListedRightIff(es, p, c);
        if BatchEdge(es, p, c) && !FinalParent(es, p, c) {
          var j, k := EdgeWasOverruled(es, p, c);
        }
      }
    }
  }

  lemma OverruledEdge(es: seq<Event>, j: nat, k: nat)
    requires j < |es| && Overruled(es, j, k)
    ensures var p, c := es[j].payload.parent.value, es[j].task;
            BatchEdge(es, p, c) && !FinalParent(es, p, c) && Seen(es, |es|, p)
  {
    var p, c := es[j].payload.parent.value, es[j].task;
    assert DraftsUnder(es, j, p, c);
    SeenStays(es, j + 1, |es|, p);
    ParentFromDraft(es, |es|, k, c);
    FinalParentIsOnRecord(es, p, c);
  }

  lemma EdgeWasOverruled(es: seq<Event>, p: Id, c: Id) returns (j: nat, k: nat)
    requires BatchEdge(es, p, c) && !FinalParent(es, p, c)
    ensures j < |es| && Overruled(es, j, k)
  {
    j :| 0 <= j < |es| && DraftsUnder(es, j, p, c);
    k := LastDraftOf(es, j, c);
  }

  /** In particular when every task is drafted at most once. */
  lemma DraftedOnceEdges(es: seq<Event>, p: Id, c: Id)
    requires DraftedOnce(es)
    ensures BatchEdge(es, p, c) <==> FinalParent(es, p, c) && Seen(es, |es|, p)
  {
    if j :| 0 <= j < |es| && DraftsUnder(es, j, p, c) {
      assert LastDraft(es, j, |es|, c);
      SeenStays(es, j + 1, |es|, p);
    }
  }

  // ---- conservation of cost ----

  function SpentBy(nodes: map<Id, Node>, order: seq<Id>): real {
    if order == [] then 0.0
    else
      var last := order[|order| - 1];
      SpentBy(nodes, order[..|order| - 1]) + if last in nodes then nodes[last].fields.spent else 0.0
  }

  function CostOf(es: seq<Event>, n: nat): real
    requires n <= |es|
  {
    if n == 0 then 0.0 else CostOf(es, n - 1) + es[n - 1].cost
  }

  /** Changing one listed node's spending changes the total by as much. */
  lemma {:induction false} SpentAfterUpdate(a: map<Id, Node>, b: map<Id, Node>, order: seq<Id>, t: Id, delta: real)
    requires Distinct(order) && t in a && t in b && b[t].fields.spent == a[t].fields.spent + delta
    requires forall u :: u in order && u != t ==> u in a && u in b && a[u].fields.spent == b[u].fields.spent
    ensures SpentBy(b, order) == SpentBy(a, order) + if t in order then delta else 0.0
  {
    if order == [] {
    } else {
      var init, last := order[..|order| - 1], order[|order| - 1];
      assert order == init + [last];
      SpentAfterUpdate(a, b, init, t, delta);
    }
  }

  lemma {:induction false} SpentUnaffected(a: map<Id, Node>, b: map<Id, Node>, order: seq<Id>)
    requires forall u :: u in order ==> u in a && u in b && a[u].fields.spent == b[u].fields.spent
    ensures SpentBy(a, order) == SpentBy(b, order)
  {
    if order == [] {
    } else {
      assert order == order[..|order| - 1] + [order[|order| - 1]];
      SpentUnaffected(a, b, order[..|order| - 1]);
    }
  }

  lemma FoldStepSpends(g: Graph, e: Event, u: Id)
    ensures var h := FoldStep(g, e);
            && (u in g.nodes && u != e.task ==> u in h.nodes && h.nodes[u].fields.spent == g.nodes[u].fields.spent)
            && e.task in h.nodes
            && h.nodes[e.task].fields.spent == (if e.task in g.nodes then g.nodes[e.task].fields.spent else 0.0) + e.cost
            && h.order == if e.task in g.nodes then g.order else g.order + [e.task]
  {}

  lemma StepConservesCost(g: Graph, e: Event)
    requires Distinct(g.order) && forall u :: u in g.order <==> u in g.nodes
    ensures var h := FoldStep(g, e); SpentBy(h.nodes, h.order) == SpentBy(g.nodes, g.order) + e.cost
  {
    var h, t := FoldStep(g, e), e.task;
    FoldStepSpends(g, e, t);
    forall u | u in g.order && u != t ensures u in h.nodes && g.nodes[u].fields.spent == h.nodes[u].fields.spent {
      FoldStepSpends(g, e, u);
    }
    if t in g.nodes {
      SpentAfterUpdate(g.nodes, h.nodes, g.order, t, e.cost);
    } else {
      SpentUnaffected(g.nodes, h.nodes, g.order);
      assert h.order[..|h.order| - 1] == g.order;
    }
  }

  lemma {:induction false} FoldConservesCost(es: seq<Event>, n: nat)
    requires n <= |es|
    ensures SpentBy(Folded(es, n).nodes, Folded(es, n).order) == CostOf(es, n)
  {
    if n == 0 {
    } else {
      FoldConservesCost(es, n - 1);
      OrderDistinct(es, n - 1);
      var g := Folded(es, n - 1);
      forall u ensures u in g.order <==> u in g.nodes {
        FoldKeys(es, n - 1, u);
      }
      StepConservesCost(g, es[n - 1]);
    }
  }

  /** What the tasks spent, all together, is what the events cost. */
  lemma ProjectionConservesCost(es: seq<Event>)
    ensures SpentBy(Projected(es), Folded(es, |es|).order) == CostOf(es, |es|)
  {
    FoldConservesCost(es, |es|);
    var g := Folded(es, |es|);
    forall u | u in g.order ensures u in g.nodes && u in Projected(es) && g.nodes[u].fields.spent == Projected(es)[u].fields.spent {
      FoldKeys(es, |es|, u);
      ResolveKeepsFields(g.nodes, g.order, |g.order|, u);
    }
    SpentUnaffected(g.nodes, Projected(es), g.order);
  }

  // ---- order of events ----

  function Swapped(es: seq<Event>, i: nat): seq<Event>
    requires i + 1 < |es|
  {
    es[i := es[i + 1]][i + 1 := es[i]]
  }

  /** Swapping neighbours that belong to different tasks changes no node, children aside. */
  lemma {:induction false} SwapKeepsFields(es: seq<Event>, i: nat, n: nat, t: Id)
    requires i + 1 < |es| && es[i].task != es[i + 1].task && n <= |es| && n != i + 1
    ensures BatchFields(Swapped(es, i), n, t) == BatchFields(es, n, t)
    ensures Seen(Swapped(es, i), n, t) == Seen(es, n, t)
  {
    if n == i + 2 {
      SwapKeepsFields(es, i, i, t);
      var fs := Swapped(es, i);
      assert BatchFields(fs, i + 1, t) == if fs[i].task == t then Some(BatchApplied(BatchFields(fs, i, t), fs[i])) else BatchFields(fs, i, t);
      assert BatchFields(es, i + 1, t) == if es[i].task == t then Some(BatchApplied(BatchFields(es, i, t), es[i])) else BatchFields(es, i, t);
    } else if n != 0 {
      SwapKeepsFields(es, i, n - 1, t);
    }
  }

  /** A draft of c under p outside the swapped pair. */
  ghost predicate DraftedElsewhere(es: seq<Event>, i: nat, p: Id, c: Id) {
    exists j :: 0 <= j < |es| && j != i && j != i + 1 && DraftsUnder(es, j, p, c)
  }

  /** One of the pair is the first event of p, the other drafts c under p, and nothing else records the edge. */
  ghost predicate Critical(es: seq<Event>, i: nat, p: Id, c: Id)
    requires i + 1 < |es|
  {
    && !Seen(es, i, p) && p != c && p != ""
    && ((Names(es[i], p, c) && es[i + 1].task == p) || (Names(es[i + 1], p, c) && es[i].task == p))
    && !FinalParent(es, p, c)
    && !DraftedElsewhere(es, i, p, c)
  }

  predicate Names(e: Event, p: Id, c: Id) {
    e.task == c && e.kind.TaskDrafted? && e.payload.parent == Some(p)
  }

  lemma SwapElsewhere(es: seq<Event>, i: nat, j: nat, p: Id, c: Id)
    requires i + 1 < |es| && es[i].task != es[i + 1].task && j < |es| && j != i && j != i + 1
    ensures DraftsUnder(Swapped(es, i), j, p, c) == DraftsUnder(es, j, p, c)
  {
    SwapKeepsFields(es, i, j + 1, p);
  }

  lemma SwapKeepsElsewhere(es: seq<Event>, i: nat, p: Id, c: Id)
    requires i + 1 < |es| && es[i].task != es[i + 1].task
    ensures DraftedElsewhere(Swapped(es, i), i, p, c) == DraftedElsewhere(es, i, p, c)
    ensures FinalParent(Swapped(es, i), p, c) == FinalParent(es, p, c)
    ensures Seen(Swapped(es, i), |es|, p) == Seen(es, |es|, p)
  {
    SwapKeepsFields(es, i, |es|, c);
    SwapKeepsFields(es, i, |es|, p);
    FinalParentIsOnRecord(es, p, c);
    FinalParentIsOnRecord(Swapped(es, i), p, c);
    forall j | 0 <= j < |es| && j != i && j != i + 1
      ensures DraftsUnder(Swapped(es, i), j, p, c) == DraftsUnder(es, j, p, c)
    {
      SwapElsewhere(es, i, j, p, c);
    }
  }

  lemma EdgeByCases(es: seq<Event>, i: nat, p: Id, c: Id)
    requires i + 1 < |es|
    ensures BatchEdge(es, p, c) <==>
              || DraftedElsewhere(es, i, p, c)
              || DraftsUnder(es, i, p, c) || DraftsUnder(es, i + 1, p, c)
              || (FinalParent(es, p, c) && Seen(es, |es|, p))
  {}

  /** The swap moves an edge in or out exactly when it is critical for it: so replay is insensitive to the
      order of different tasks' events but for a child drafted away from a parent that had only just appeared. */
  lemma SwapKeepsEdgeIff(es: seq<Event>, i: nat, p: Id, c: Id)
    requires i + 1 < |es| && es[i].task != es[i + 1].task
    ensures (BatchEdge(Swapped(es, i), p, c) <==> BatchEdge(es, p, c)) <==> !Critical(es, i, p, c)
  {
    var fs := Swapped(es, i);
    SwapKeepsElsewhere(es, i, p, c);
    EdgeByCases(es, i, p, c);
    EdgeByCases(fs, i, p, c);
    SwapKeepsFields(es, i, i, p);
    SwapKeepsFields(es, i, i + 2, p);
    assert Seen(es, i + 1, p) <==> es[i].task == p || Seen(es, i, p);
    assert Seen(fs, i + 1, p) <==> fs[i].task == p || Seen(es, i, p);
    assert Seen(es, i + 2, p) <==> es[i + 1].task == p || es[i].task == p || Seen(es, i, p);
    if Seen(es, i + 2, p) {
      SeenStays(es, i + 2, |es|, p);
    }
  }

  lemma NothingIsCritical(es: seq<Event>, i: nat, p: Id, c: Id)
    requires i + 1 < |es| && DraftedOnce(es)
    ensures !Critical(es, i, p, c)
  {
    assert Names(es[i], p, c) ==> LastDraft(es, i, |es|, c);
    assert Names(es[i + 1], p, c) ==> LastDraft(es, i + 1, |es|, c);
  }

  /** With every task drafted at most once nothing is critical: the whole projection survives the swap, up
      to the order in which children are listed. */
  lemma SwapKeepsProjection(es: seq<Event>, i: nat, p: Id, c: Id)
    requires i + 1 < |es| && es[i].task != es[i + 1].task && DraftedOnce(es)
    ensures var m, m' := Projected(es), Projected(Swapped(es, i));
            && (p in m <==> p in m')
            && (p in m ==> m'[p].fields == m[p].fields && (c in m'[p].children <==> c in m[p].children))
  {
    var fs := Swapped(es, i);
    ProjectionIsLocal(es, p);
    ProjectionIsLocal(fs, p);
    SwapKeepsFields(es, i, |es|, p);
    if p in Projected(es) {
      ChildrenAreEdges(es, p, c);
      ChildrenAreEdges(fs, p, c);
      SwapKeepsEdgeIff(es, i, p, c);
      NothingIsCritical(es, i, p, c);
    }
  }
}
