/** The ledger against the batch projection: two implementations of one fold, and exactly where they part.
    Events without a task may stand anywhere in the stream: the batch never has them, the ledger's tasks
    ignore them, and nothing is said about a task "". */
module LedgerRefinement {
  import opened Collections
  import opened EventDag
  import BP = BatchProjection
  import BL = BridgeLedgers

  /** The ledger's fields are the batch's, an empty parent id counting as none. */
  predicate Matches(l: Option<Fields>, b: Option<Fields>) {
    l.Some? == b.Some? && (l.Some? ==> l.value.(parent := Truthy(l.value.parent)) == b.value)
  }

  /** A granted lease whose payload names another gateway than the event's source. */
  predicate ForeignLease(e: Event) {
    e.task != "" && e.kind.LeaseGranted? && e.payload.gateway.Some? && e.payload.gateway.value != e.source
  }

  /** A task's first event that carries a title without drafting or amending: only the batch takes the title. */
  predicate EarlyTitle(es: seq<Event>, i: nat)
    requires i < |es|
  {
    && es[i].task != "" && !Seen(es, i, es[i].task)
    && !es[i].kind.TaskDrafted? && !es[i].kind.TaskAmended?
    && GetOr(es[i].payload.title, "Unknown") != "Unknown"
  }

  predicate IsExecuting(es: seq<Event>, i: nat, t: Id)
    requires i <= |es|
  {
    BatchFields(es, i, t).Some? && BatchFields(es, i, t).value.status.Executing?
  }

  /** A system halt while some task is executing: only the ledger halts it. */
  ghost predicate EffectiveHalt(es: seq<Event>, i: nat)
    requires i < |es|
  {
    es[i].task != "" && es[i].kind.SystemHalt? && exists t :: t != "" && IsExecuting(es, i, t)
  }

  ghost predicate Parting(es: seq<Event>, i: nat)
    requires i < |es|
  {
    ForeignLease(es[i]) || EarlyTitle(es, i) || EffectiveHalt(es, i)
  }

  lemma AppliedMatches(l: Option<Fields>, b: Option<Fields>, e: Event)
    requires Matches(l, b) && e.task != "" && !ForeignLease(e)
    requires b.None? && !e.kind.TaskDrafted? && !e.kind.TaskAmended? ==> GetOr(e.payload.title, "Unknown") == "Unknown"
    ensures Matches(Some(LedgerApplied(l, e)), Some(BatchApplied(b, e)))
  {}

  lemma {:induction false} MatchUntilParting(es: seq<Event>, n: nat, t: Id)
    requires n <= |es| && t != ""
    requires forall i :: 0 <= i < n ==> !Parting(es, i)
    ensures Matches(LedgerFields(es, n, t), BatchFields(es, n, t))
  {
    if n == 0 {
    } else {
      MatchUntilParting(es, n - 1, t);
      assert !Parting(es, n - 1);
      BatchFieldsIffSeen(es, n - 1, t);
      var e := es[n - 1];
      if e.task == t {
        AppliedMatches(LedgerFields(es, n - 1, t), BatchFields(es, n - 1, t), e);
      }
      if e.task != "" && e.kind.SystemHalt? {
        assert !IsExecuting(es, n - 1, t);
      }
    }
  }

  lemma PartingShows(es: seq<Event>, i: nat, t: Id)
    requires i < |es| && t != ""
    requires es[i].task != ""
    requires if es[i].kind.SystemHalt? && !EarlyTitle(es, i) then IsExecuting(es, i, t) else Parting(es, i) && t == es[i].task
    ensures !Matches(LedgerFields(es, i, t), BatchFields(es, i, t)) || !Matches(LedgerFields(es, i + 1, t), BatchFields(es, i + 1, t))
  {
    BatchFieldsIffSeen(es, i, t);
    LedgerFieldsIffSeen(es, i, t);
  }

  /** The ledger agrees with the batch projection on every field of every task after every event exactly
      when the stream holds no foreign lease, no early title and no effective halt. */
  lemma AgreesIffNoParting(es: seq<Event>)
    ensures (forall n, t :: 0 <= n <= |es| && t != "" ==> Matches(LedgerFields(es, n, t), BatchFields(es, n, t)))
       <==> (forall i :: 0 <= i < |es| ==> !Parting(es, i))
  {
    if forall i :: 0 <= i < |es| ==> !Parting(es, i) {
      forall n, t | 0 <= n <= |es| && t != "" ensures Matches(LedgerFields(es, n, t), BatchFields(es, n, t)) {
        MatchUntilParting(es, n, t);
      }
    } else {
      var i :| 0 <= i < |es| && Parting(es, i);
      if es[i].kind.SystemHalt? && !EarlyTitle(es, i) {
        var t :| t != "" && IsExecuting(es, i, t);
        PartingShows(es, i, t);
      } else {
        PartingShows(es, i, es[i].task);
      }
    }
  }

  /** The same, of the two programs: after any run without parting events, the ledger's tasks carry what
      the batch projection computes. */
  lemma LedgerRefinesBatch(es: seq<Event>, maxEvents: int, t: Id)
    requires t != "" && forall i :: 0 <= i < |es| ==> !Parting(es, i)
    ensures var tasks, nodes := BL.LedgerAt(es, |es|, maxEvents).tasks, BP.Projected(es);
            && (t in tasks <==> t in nodes)
            && (t in tasks ==> tasks[t].fields.(parent := Truthy(tasks[t].fields.parent)) == nodes[t].fields)
  {
    MatchUntilParting(es, |es|, t);
    BL.TaskFieldsAt(es, |es|, maxEvents, t);
    BP.ProjectionIsLocal(es, t);
    BatchFieldsIffSeen(es, |es|, t);
  }

  // ---- edges ----

  predicate SameParent(l: Option<Fields>, b: Option<Fields>) {
    l.Some? == b.Some? && (l.Some? ==> Truthy(l.value.parent) == b.value.parent)
  }

  lemma EventKeepsParent(l: Option<Fields>, b: Option<Fields>, e: Event)
    requires SameParent(l, b)
    ensures SameParent(Some(HaltedBy(LedgerApplied(l, e), e)), Some(BatchApplied(b, e)))
    ensures l.Some? ==> SameParent(Some(HaltedBy(l.value, e)), b)
  {}

  /** Parents on record agree whatever the stream. */
  lemma {:induction false} ParentsAgree(es: seq<Event>, n: nat, t: Id)
    requires n <= |es| && t != ""
    ensures SameParent(LedgerFields(es, n, t), BatchFields(es, n, t))
  {
    if n == 0 {
      assert LedgerFields(es, 0, t).None? && BatchFields(es, 0, t).None?;
    } else {
      ParentsAgree(es, n - 1, t);
      EventKeepsParent(LedgerFields(es, n - 1, t), BatchFields(es, n - 1, t), es[n - 1]);
    }
  }

  /** What strands an edge, read off the stream. Draft j, the latest of its task up to event i, names p, who
      is seen by then; the task's last draft k comes later and names another parent or none; and no draft of
      the task that names p comes when p is seen. */
  ghost predicate Redrafted(es: seq<Event>, j: nat, i: nat, k: nat, p: Id) {
    && j <= i < k < |es| && es[i].task != "" && p != ""
    && BP.LastDraft(es, j, i + 1, es[i].task) && es[j].payload.parent == Some(p) && Seen(es, i + 1, p)
    && BP.LastDraft(es, k, |es|, es[i].task) && es[k].payload.parent != Some(p)
    && forall l :: 0 <= l < |es| && BP.Drafts(es, l, es[i].task) && es[l].payload.parent == Some(p) ==> !Seen(es, l + 1, p)
  }

  /** The ledger lists the edge as soon as some event of the child finds the drafted parent seen. */
  lemma NamedByDraft(es: seq<Event>, i: nat, j: nat, p: Id)
    requires i < |es| && es[i].task != "" && p != "" && Seen(es, i + 1, p)
    requires BP.LastDraft(es, j, i + 1, es[i].task) && es[j].payload.parent == Some(p)
    ensures BL.NamesParent(es, i, p, es[i].task)
  {
    BP.ParentFromDraft(es, i + 1, j, es[i].task);
    ParentsAgree(es, i + 1, es[i].task);
  }

  lemma RedraftedStrands(es: seq<Event>, j: nat, i: nat, k: nat, p: Id)
    requires Redrafted(es, j, i, k, p)
    ensures BL.LedgerEdge(es, |es|, p, es[i].task) && !BP.BatchEdge(es, p, es[i].task)
  {
    NamedByDraft(es, i, j, p);
    BP.ParentFromDraft(es, |es|, k, es[i].task);
    BP.FinalParentIsOnRecord(es, p, es[i].task);
    forall l | 0 <= l < |es| ensures !BP.DraftsUnder(es, l, p, es[i].task) {
      assert BP.Drafts(es, l, es[i].task) && es[l].payload.parent == Some(p) ==> !Seen(es, l + 1, p);
    }
  }

  lemma NamedWasDrafted(es: seq<Event>, i: nat, p: Id, c: Id) returns (j: nat)
    requires i < |es| && BL.NamesParent(es, i, p, c)
    ensures c != "" && p != "" && es[i].task == c && Seen(es, i + 1, p)
    ensures BP.LastDraft(es, j, i + 1, c) && es[j].payload.parent == Some(p)
  {
    BL.NoTaskNoFields(es, i + 1);
    ParentsAgree(es, i + 1, c);
    j := BP.ParentWasDrafted(es, i + 1, p, c);
  }

  lemma NotFinal(es: seq<Event>, i: nat, k: nat, p: Id, c: Id)
    requires i < |es| && Seen(es, i + 1, p) && p != "" && !BP.BatchEdge(es, p, c) && BP.LastDraft(es, k, |es|, c)
    ensures es[k].payload.parent != Some(p)
  {
    SeenStays(es, i + 1, |es|, p);
  }

  lemma StrandedWasRedrafted(es: seq<Event>, p: Id, c: Id) returns (j: nat, i: nat, k: nat)
    requires BL.LedgerEdge(es, |es|, p, c) && !BP.BatchEdge(es, p, c)
    ensures Redrafted(es, j, i, k, p) && es[i].task == c
  {
    i :| 0 <= i < |es| && BL.NamesParent(es, i, p, c);
    j := NamedWasDrafted(es, i, p, c);
    k := BP.LastDraftOf(es, j, c);
    NotFinal(es, i, k, p, c);
    NeverUnder(es, p, c);
    assert k > i by {
      assert k <= i ==> k == j;
    }
  }

  lemma NeverUnder(es: seq<Event>, p: Id, c: Id)
    requires !BP.BatchEdge(es, p, c) && p != ""
    ensures forall l :: 0 <= l < |es| && BP.Drafts(es, l, c) && es[l].payload.parent == Some(p) ==> !Seen(es, l + 1, p)
  {
    forall l | 0 <= l < |es| && BP.Drafts(es, l, c) && es[l].payload.parent == Some(p) ensures !Seen(es, l + 1, p) {
      assert !BP.DraftsUnder(es, l, p, c);
    }
  }

  /** Every edge of the ledger is an edge of the batch projection exactly when no task is redrafted so. */
  lemma EdgesWithinBatchIff(es: seq<Event>)
    ensures (forall p, c :: BL.LedgerEdge(es, |es|, p, c) ==> BP.BatchEdge(es, p, c))
       <==> (forall j, i, k, p :: !Redrafted(es, j, i, k, p))
  {
    if j, i, k, p :| Redrafted(es, j, i, k, p) {
      RedraftedStrands(es, j, i, k, p);
    }
    if p, c :| BL.LedgerEdge(es, |es|, p, c) && !BP.BatchEdge(es, p, c) {
      var j, i, k := StrandedWasRedrafted(es, p, c);
    }
  }

  function Sample(task: Id, kind: Kind, parent: Option<Id>): Event {
    Event("e", task, kind, Payload(None, parent, None, None, None, None), 0.0, "g", "t")
  }

  /** Such a stream: c drafted under an unknown p, p appears, c bids, c is redrafted under q. */
  lemma RedraftStrands()
    ensures var es := [Sample("c", TaskDrafted, Some("p")), Sample("p", OtherKind, None), Sample("c", BidSubmitted, None),
                       Sample("c", TaskDrafted, Some("q"))];
            Redrafted(es, 0, 2, 3, "p") && BL.LedgerEdge(es, 4, "p", "c") && !BP.BatchEdge(es, "p", "c")
  {
    var es := [Sample("c", TaskDrafted, Some("p")), Sample("p", OtherKind, None), Sample("c", BidSubmitted, None),
               Sample("c", TaskDrafted, Some("q"))];
    assert Seen(es, 2, "p") && Seen(es, 3, "p") && !Seen(es, 0, "p") && !Seen(es, 1, "p");
    RedraftedStrands(es, 0, 2, 3, "p");
  }

  /** Some event of c comes when p is already known: p's first event is not after c's last. */
  ghost predicate InTime(es: seq<Event>, p: Id, c: Id) {
    exists i :: 0 <= i < |es| && es[i].task == c && Seen(es, i + 1, p)
  }

  lemma LedgerEdgeIsFinal(es: seq<Event>, i: nat, p: Id, c: Id)
    requires BP.DraftedOnce(es) && i < |es| && BL.NamesParent(es, i, p, c)
    ensures BP.FinalParent(es, p, c) && InTime(es, p, c)
  {
    BL.NoTaskNoFields(es, i + 1);
    ParentsAgree(es, i + 1, c);
    var j := BP.ParentWasDrafted(es, i + 1, p, c);
    assert BP.LastDraft(es, j, |es|, c);
  }

  lemma FinalParentIsNamed(es: seq<Event>, i: nat, p: Id, c: Id)
    requires BP.DraftedOnce(es) && BP.FinalParent(es, p, c) && c != ""
    requires i < |es| && es[i].task == c && Seen(es, i + 1, p)
    ensures BL.LedgerEdge(es, |es|, p, c)
  {
    var j: nat :| BP.LastDraft(es, j, |es|, c) && es[j].payload.parent == Some(p);
    var k := if i < j then j else i;
    SeenStays(es, i + 1, k + 1, p);
    BP.ParentFromDraft(es, k + 1, j, c);
    ParentsAgree(es, k + 1, c);
    assert BL.NamesParent(es, k, p, c);
  }

  lemma DraftedOnceLedgerEdge(es: seq<Event>, p: Id, c: Id)
    requires BP.DraftedOnce(es) && c != ""
    ensures BL.LedgerEdge(es, |es|, p, c) <==> BP.FinalParent(es, p, c) && InTime(es, p, c)
  {
    if i :| 0 <= i < |es| && BL.NamesParent(es, i, p, c) {
      LedgerEdgeIsFinal(es, i, p, c);
    }
    if BP.FinalParent(es, p, c) && InTime(es, p, c) {
      var i :| 0 <= i < |es| && es[i].task == c && Seen(es, i + 1, p);
      FinalParentIsNamed(es, i, p, c);
    }
  }

  /** With every task drafted at most once the ledger's edges are among the batch's, and they are all of
      them exactly when every known parent's first event comes no later than its child's last. */
  lemma EdgesAgreeIffInTime(es: seq<Event>)
    requires BP.DraftedOnce(es)
    ensures forall p, c :: c != "" && BL.LedgerEdge(es, |es|, p, c) ==> BP.BatchEdge(es, p, c)
    ensures (forall p, c :: c != "" && BP.BatchEdge(es, p, c) ==> BL.LedgerEdge(es, |es|, p, c))
       <==> (forall p, c :: c != "" && BP.FinalParent(es, p, c) && Seen(es, |es|, p) ==> InTime(es, p, c))
  {
    forall p, c | c != ""
      ensures BL.LedgerEdge(es, |es|, p, c) <==> BP.FinalParent(es, p, c) && InTime(es, p, c)
      ensures BP.BatchEdge(es, p, c) <==> BP.FinalParent(es, p, c) && Seen(es, |es|, p)
      ensures InTime(es, p, c) ==> Seen(es, |es|, p)
    {
      DraftedOnceLedgerEdge(es, p, c);
      BP.DraftedOnceEdges(es, p, c);
      if InTime(es, p, c) {
        var i :| 0 <= i < |es| && es[i].task == c && Seen(es, i + 1, p);
        SeenStays(es, i + 1, |es|, p);
      }
    }
  }

  /** And of the two programs' children lists. */
  lemma ChildrenWithinBatch(es: seq<Event>, maxEvents: int, p: Id, c: Id)
    requires BP.DraftedOnce(es) && p != "" && c != "" && p in BL.LedgerAt(es, |es|, maxEvents).tasks
    ensures p in BP.Projected(es)
    ensures c in BL.LedgerAt(es, |es|, maxEvents).tasks[p].children ==> c in BP.Projected(es)[p].children
    ensures c in BP.Projected(es)[p].children && InTime(es, p, c)
            ==> c in BL.LedgerAt(es, |es|, maxEvents).tasks[p].children
  {
    BL.TaskFieldsAt(es, |es|, maxEvents, p);
    LedgerFieldsIffSeen(es, |es|, p);
    BP.ProjectionIsLocal(es, p);
    BL.ChildrenAreEdges(es, |es|, maxEvents, p, c);
    BP.ChildrenAreEdges(es, p, c);
    DraftedOnceLedgerEdge(es, p, c);
    BP.DraftedOnceEdges(es, p, c);
  }

  /** A critical swap exists: a child is drafted away from a parent that had only just appeared. */
  lemma SwapCanMoveEdge()
    ensures var es := [Sample("a", OtherKind, None), Sample("b", TaskDrafted, Some("a")), Sample("b", TaskDrafted, Some("z"))];
            BP.BatchEdge(es, "a", "b") && !BP.BatchEdge(BP.Swapped(es, 0), "a", "b")
  {
    var es := [Sample("a", OtherKind, None), Sample("b", TaskDrafted, Some("a")), Sample("b", TaskDrafted, Some("z"))];
    assert Seen(es, 1, "a") && Seen(es, 2, "a");
    assert BP.DraftsUnder(es, 1, "a", "b");
    BP.ParentFromDraft(es, 3, 2, "b");
    BP.FinalParentIsOnRecord(es, "a", "b");
    forall j | 0 <= j < |es| && j != 0 && j != 1 ensures !BP.DraftsUnder(es, j, "a", "b") {}
    assert BP.Critical(es, 0, "a", "b");
    BP.SwapKeepsEdgeIff(es, 0, "a", "b");
  }
}
