/** Both projections read off the stream: what a task shows is what the last event of the right kind says. */
module TaskHistory {
  import opened Collections
  import opened EventDag
  import B = BatchProjection
  import L = BridgeLedgers

  /** What an event can tell of its task. */
  datatype Aspect = Anything | State | Assignment | Completion | Title | Draft

  /** The status an event of this kind stands for, if any. */
  function StatusOf(kind: Kind): Option<Status> {
    match kind
    case TaskDrafted | AuditRejected | LeaseExpired => Some(Pending)
    case BidSubmitted => Some(Bidding)
    case LeaseGranted => Some(Claimed)
    case TaskClaimed => Some(Executing)
    case AuditProposed => Some(AuditPending)
    case TaskCompleted | AuditAccepted => Some(Completed)
    case TaskFailed | CircuitBreaker => Some(Failed)
    case TaskCancelled => Some(Cancelled)
    case _ => None
  }

  predicate Tells(a: Aspect, e: Event) {
    match a
    case Anything => true
    case State => StatusOf(e.kind).Some?
    case Assignment => e.kind in {LeaseGranted, TaskClaimed, AuditRejected, LeaseExpired}
    case Completion => e.kind.TaskCompleted?
    case Title => e.kind in {TaskDrafted, TaskAmended} && e.payload.title.Some?
    case Draft => e.kind.TaskDrafted?
  }

  /** The task's last event, among the first n, to tell this of it. */
  function LastOn(es: seq<Event>, n: nat, t: Id, a: Aspect): Option<Event>
    requires n <= |es|
  {
    if n == 0 then None
    else if es[n - 1].task == t && Tells(a, es[n - 1]) then Some(es[n - 1])
    else LastOn(es, n - 1, t, a)
  }

  /** Event j is the task's last, among the first n, to tell this of it. */
  ghost predicate LastAt(es: seq<Event>, n: nat, t: Id, a: Aspect, j: nat) {
    j < n <= |es| && es[j].task == t && Tells(a, es[j]) && forall k :: j < k < n ==> es[k].task != t || !Tells(a, es[k])
  }

  lemma {:induction false} LastOnIsLast(es: seq<Event>, n: nat, t: Id, a: Aspect, j: nat)
    requires n <= |es|
    ensures LastAt(es, n, t, a, j) ==> LastOn(es, n, t, a) == Some(es[j])
    ensures (exists k: nat :: LastAt(es, n, t, a, k)) <==> LastOn(es, n, t, a).Some?
  {
    if n == 0 {
    } else if es[n - 1].task == t && Tells(a, es[n - 1]) {
      assert LastAt(es, n, t, a, n - 1);
    } else {
      var m := n - 1;
      LastOnIsLast(es, m, t, a, j);
      if k: nat :| LastAt(es, m, t, a, k) {
        assert LastAt(es, n, t, a, k);
      }
      if k: nat :| LastAt(es, n, t, a, k) {
        assert LastAt(es, m, t, a, k);
      }
    }
  }

  /** The task's first event. */
  function FirstOn(es: seq<Event>, n: nat, t: Id): Option<Event>
    requires n <= |es|
  {
    if n == 0 then None
    else
      var before := FirstOn(es, n - 1, t);
      if before.None? && es[n - 1].task == t then Some(es[n - 1]) else before
  }

  /** The ids of the task's events, in stream order. */
  function IdsOn(es: seq<Event>, n: nat, t: Id): seq<Id>
    requires n <= |es|
  {
    if n == 0 then [] else IdsOn(es, n - 1, t) + if es[n - 1].task == t then [es[n - 1].id] else []
  }

  lemma {:induction false} NeverBefore(es: seq<Event>, n: nat, t: Id)
    requires n <= |es|
    ensures FirstOn(es, n, t).Some? <==> Seen(es, n, t)
    ensures !Seen(es, n, t) ==> IdsOn(es, n, t) == [] && forall a: Aspect :: LastOn(es, n, t, a) == None
  {
    if n == 0 {
    } else {
      NeverBefore(es, n - 1, t);
    }
  }

  // ---- what both projections show alike ----

  /** Title, completion time, budget, events and creation time. The two differ in the title a task has until
      an event names one. */
  ghost predicate SharedTells(es: seq<Event>, n: nat, t: Id, f: Fields, title: string)
    requires n <= |es|
  {
    var done, draft, named := LastOn(es, n, t, Completion), LastOn(es, n, t, Draft), LastOn(es, n, t, Title);
    && f.completedAt == (if done.Some? then Some(done.value.ts) else None)
    && f.budget == (if draft.Some? then GetOr(draft.value.payload.budget, 0.0) else 0.0)
    && f.title == (if named.Some? then GetOr(named.value.payload.title, "") else title)
    && f.events == IdsOn(es, n, t)
    && FirstOn(es, n, t).Some? && f.createdAt == FirstOn(es, n, t).value.ts
  }

  lemma OwnEventShared(es: seq<Event>, n: nat, t: Id, f: Fields, title: string)
    requires 0 < n <= |es| && es[n - 1].task == t && SharedTells(es, n - 1, t, f, title)
    ensures SharedTells(es, n, t, Applied(f, es[n - 1]), title)
  {}

  lemma FirstEventShared(es: seq<Event>, n: nat, t: Id, title: string)
    requires 0 < n <= |es| && es[n - 1].task == t && !Seen(es, n - 1, t)
    ensures SharedTells(es, n, t, Applied(NewFields(title, es[n - 1].ts), es[n - 1]), title)
  {
    NeverBefore(es, n - 1, t);
  }

  /** A granted lease assigns to the gateway it comes from or, in the ledger, names; a claim to the one it
      names, or else comes from; and a rejected audit or expired lease to none. */
  ghost predicate GatewayTells(es: seq<Event>, n: nat, t: Id, gateway: Option<string>, leaseNames: bool)
    requires n <= |es|
  {
    var last := LastOn(es, n, t, Assignment);
    if last.None? || last.value.kind in {AuditRejected, LeaseExpired} then gateway == None
    else
      var e := last.value;
      gateway == Some(if e.payload.gateway.Some? && (e.kind.TaskClaimed? || leaseNames) then e.payload.gateway.value else e.source)
  }

  function LastStatus(es: seq<Event>, n: nat, t: Id): Status
    requires n <= |es|
  {
    var last := LastOn(es, n, t, State);
    if last.Some? then GetOr(StatusOf(last.value.kind), Pending) else Pending
  }

  // ---- the batch projection ----

  lemma {:induction false} BatchShared(es: seq<Event>, n: nat, t: Id)
    requires n <= |es| && Seen(es, n, t)
    ensures BatchFields(es, n, t).Some? && FirstOn(es, n, t).Some?
    ensures SharedTells(es, n, t, BatchFields(es, n, t).value, GetOr(FirstOn(es, n, t).value.payload.title, "Unknown"))
  {
    var m, e := n - 1, es[n - 1];
    BatchFieldsIffSeen(es, m, t);
    NeverBefore(es, m, t);
    if !Seen(es, m, t) {
      FirstEventShared(es, n, t, GetOr(e.payload.title, "Unknown"));
    } else {
      BatchShared(es, m, t);
      if e.task == t {
        OwnEventShared(es, n, t, BatchFields(es, m, t).value, GetOr(FirstOn(es, m, t).value.payload.title, "Unknown"));
      }
    }
  }

  lemma {:induction false} BatchGateway(es: seq<Event>, n: nat, t: Id)
    requires n <= |es| && Seen(es, n, t)
    ensures BatchFields(es, n, t).Some? && GatewayTells(es, n, t, BatchFields(es, n, t).value.gateway, false)
  {
    var m := n - 1;
    BatchFieldsIffSeen(es, m, t);
    NeverBefore(es, m, t);
    if Seen(es, m, t) {
      BatchGateway(es, m, t);
    }
  }

  lemma AppliedStatus(f: Fields, e: Event)
    ensures Applied(f, e).status == GetOr(StatusOf(e.kind), f.status)
  {}

  lemma {:induction false} BatchStatus(es: seq<Event>, n: nat, t: Id)
    requires n <= |es| && Seen(es, n, t)
    ensures BatchFields(es, n, t).Some? && BatchFields(es, n, t).value.status == LastStatus(es, n, t)
  {
    var m, e := n - 1, es[n - 1];
    BatchFieldsIffSeen(es, m, t);
    if Seen(es, m, t) {
      BatchStatus(es, m, t);
      AppliedStatus(BatchFields(es, m, t).value, e);
    } else {
      NeverBefore(es, m, t);
      assert e.task == t && BatchFields(es, m, t).None? && LastOn(es, m, t, State).None?;
      AppliedStatus(NewFields(GetOr(e.payload.title, "Unknown"), e.ts), e);
    }
  }

  /** A node is there exactly when an event names its task, and shows what the last of its events to say so
      said: status, gateway, title, budget and completion time. */
  lemma ProjectedTaskTells(es: seq<Event>, t: Id)
    ensures var m := B.Projected(es);
            && (t in m <==> Seen(es, |es|, t))
            && (t in m ==>
                  && FirstOn(es, |es|, t).Some?
                  && m[t].fields.status == LastStatus(es, |es|, t)
                  && GatewayTells(es, |es|, t, m[t].fields.gateway, false)
                  && SharedTells(es, |es|, t, m[t].fields, GetOr(FirstOn(es, |es|, t).value.payload.title, "Unknown")))
  {
    B.ProjectionIsLocal(es, t);
    if Seen(es, |es|, t) {
      BatchShared(es, |es|, t);
      BatchStatus(es, |es|, t);
      BatchGateway(es, |es|, t);
    }
  }

  /** The tasks of the first n events, one per event. */
  function TasksOf(es: seq<Event>, n: nat): (r: seq<Id>)
    requires n <= |es|
    ensures |r| == n
  {
    if n == 0 then [] else TasksOf(es, n - 1) + [es[n - 1].task]
  }

  /** The nodes come in the order in which events first name their tasks. */
  lemma {:induction false} NodesInOrder(es: seq<Event>, n: nat, t: Id, u: Id)
    requires n <= |es| && t in B.Folded(es, n).order && u in B.Folded(es, n).order
    ensures ComesBefore(B.Folded(es, n).order, t, u) <==> ComesBefore(TasksOf(es, n), t, u)
  {
    assert n != 0;
    var m, e, order := n - 1, es[n - 1].task, B.Folded(es, n - 1).order;
    OrderStep(es, m);
    NamedIffListed(es, m, t);
    NamedIffListed(es, m, u);
    PlaceInMore(TasksOf(es, m), e, t);
    PlaceInMore(TasksOf(es, m), e, u);
    PlaceInMore(order, e, t);
    PlaceInMore(order, e, u);
    if t in order && u in order {
      NodesInOrder(es, m, t, u);
    }
  }

  lemma {:induction false} NamedIffListed(es: seq<Event>, n: nat, t: Id)
    requires n <= |es|
    ensures t in B.Folded(es, n).order <==> Place(TasksOf(es, n), t) < n
    ensures t in B.Folded(es, n).order <==> Place(B.Folded(es, n).order, t) < |B.Folded(es, n).order|
  {
    if n == 0 {
      assert B.Folded(es, 0).order == [];
    } else {
      var m, e := n - 1, es[n - 1].task;
      NamedIffListed(es, m, t);
      PlaceInMore(TasksOf(es, m), e, t);
      OrderStep(es, m);
      if e !in B.Folded(es, m).order {
        PlaceInMore(B.Folded(es, m).order, e, t);
      }
    }
  }

  lemma OrderStep(es: seq<Event>, m: nat)
    requires m < |es|
    ensures var (order, e) := (B.Folded(es, m).order, es[m].task);
            B.Folded(es, m + 1).order == if e in order then order else order + [e]
  {
    B.FoldKeys(es, m, es[m].task);
  }

  // ---- the ledger ----

  /** The task's last status event is a claim, and a halt that names any task came after it. */
  ghost predicate HaltedSince(es: seq<Event>, n: nat, t: Id) {
    exists c: nat, h: nat :: LastAt(es, n, t, State, c) && es[c].kind.TaskClaimed? && HaltAfter(es, n, c, h)
  }

  predicate HaltAfter(es: seq<Event>, n: nat, c: nat, h: nat) {
    c < h < n <= |es| && es[h].kind.SystemHalt? && es[h].task != ""
  }

  lemma OtherLast(es: seq<Event>, m: nat, t: Id, c: nat)
    requires m < |es| && !(es[m].task == t && Tells(State, es[m]))
    ensures LastAt(es, m + 1, t, State, c) <==> LastAt(es, m, t, State, c)
  {}

  lemma HaltedStep(es: seq<Event>, m: nat, t: Id)
    requires m < |es|
    ensures var (e, last) := (es[m], LastOn(es, m, t, State));
            HaltedSince(es, m + 1, t) <==>
            && !(e.task == t && Tells(State, e))
            && (HaltedSince(es, m, t) || (e.kind.SystemHalt? && e.task != "" && last.Some? && last.value.kind.TaskClaimed?))
  {
    var e, last, next := es[m], LastOn(es, m, t, State), m + 1;
    if e.task == t && Tells(State, e) {
      assert LastAt(es, next, t, State, m);
    } else {
      if HaltedSince(es, next, t) {
        var c: nat, h: nat :| LastAt(es, next, t, State, c) && es[c].kind.TaskClaimed? && HaltAfter(es, next, c, h);
        OtherLast(es, m, t, c);
        LastOnIsLast(es, m, t, State, c);
        assert h < m ==> HaltAfter(es, m, c, h);
      }
      if c: nat, h: nat :| LastAt(es, m, t, State, c) && es[c].kind.TaskClaimed? && HaltAfter(es, m, c, h) {
        OtherLast(es, m, t, c);
        assert HaltAfter(es, next, c, h);
      }
      if e.kind.SystemHalt? && e.task != "" && last.Some? && last.value.kind.TaskClaimed? {
        LastOnIsLast(es, m, t, State, 0);
        var c: nat :| LastAt(es, m, t, State, c);
        LastOnIsLast(es, m, t, State, c);
        OtherLast(es, m, t, c);
        assert HaltAfter(es, next, c, m);
      }
    }
  }

  /** What the ledger adds to the common effect of an event leaves what the projections share. */
  lemma LedgerAddsElsewhere(es: seq<Event>, n: nat, t: Id, f: Fields, g: Fields, title: string)
    requires n <= |es| && SharedTells(es, n, t, f, title)
    requires g == f.(status := g.status, gateway := g.gateway, parent := g.parent)
    ensures SharedTells(es, n, t, g, title)
  {}

  lemma {:induction false} LedgerShared(es: seq<Event>, n: nat, t: Id)
    requires n <= |es| && Seen(es, n, t) && t != ""
    ensures LedgerFields(es, n, t).Some? && SharedTells(es, n, t, LedgerFields(es, n, t).value, "Unknown")
  {
    var m, e := n - 1, es[n - 1];
    LedgerFieldsIffSeen(es, m, t);
    LedgerFieldsIffSeen(es, n, t);
    var g := LedgerFields(es, n, t).value;
    if !Seen(es, m, t) {
      FirstEventShared(es, n, t, "Unknown");
      LedgerAddsElsewhere(es, n, t, Applied(NewFields("Unknown", e.ts), e), g, "Unknown");
    } else {
      LedgerShared(es, m, t);
      var f := LedgerFields(es, m, t).value;
      if e.task == t {
        OwnEventShared(es, n, t, f, "Unknown");
        LedgerAddsElsewhere(es, n, t, Applied(f, e), g, "Unknown");
      } else {
        LedgerAddsElsewhere(es, n, t, f, g, "Unknown");
      }
    }
  }

  lemma {:induction false} LedgerGateway(es: seq<Event>, n: nat, t: Id)
    requires n <= |es| && Seen(es, n, t) && t != ""
    ensures LedgerFields(es, n, t).Some? && GatewayTells(es, n, t, LedgerFields(es, n, t).value.gateway, true)
  {
    LedgerFieldsIffSeen(es, n - 1, t);
    NeverBefore(es, n - 1, t);
    if Seen(es, n - 1, t) {
      LedgerGateway(es, n - 1, t);
    }
  }

  lemma {:induction false} LedgerStatus(es: seq<Event>, n: nat, t: Id)
    requires n <= |es| && Seen(es, n, t) && t != ""
    ensures LedgerFields(es, n, t).Some?
    ensures LedgerFields(es, n, t).value.status == if HaltedSince(es, n, t) then Halted else LastStatus(es, n, t)
  {
    var m, e := n - 1, es[n - 1];
    LedgerFieldsIffSeen(es, m, t);
    HaltedStep(es, m, t);
    if Seen(es, m, t) {
      LedgerStatus(es, m, t);
      AppliedStatus(LedgerFields(es, m, t).value, e);
    } else {
      NeverBefore(es, m, t);
      LastOnIsLast(es, m, t, State, 0);
      AppliedStatus(NewFields("Unknown", e.ts), e);
    }
  }

  lemma TouchedRest(tasks: map<Id, L.Task>, e: Event, t: Id)
    requires t == e.task || t in tasks
    ensures var tasks' := L.TaskStep(tasks, e);
            && t in tasks'
            && tasks'[t].root == (if t != e.task then tasks[t].root
                                  else if e.kind.TaskDrafted? then e.payload.root
                                  else if t in tasks then tasks[t].root else None)
            && tasks'[t].lastUpdated == if t == e.task then e.ts else tasks[t].lastUpdated
  {}

  /** The root prompt is the last draft's, and the time of the last update that of the last event. */
  ghost predicate RestTells(es: seq<Event>, n: nat, t: Id, task: L.Task)
    requires n <= |es|
  {
    var last, draft := LastOn(es, n, t, Anything), LastOn(es, n, t, Draft);
    && task.root == (if draft.Some? then draft.value.payload.root else None)
    && last.Some? && task.lastUpdated == last.value.ts
  }

  lemma {:induction false} LedgerRest(es: seq<Event>, n: nat, maxEvents: int, t: Id)
    requires n <= |es| && Seen(es, n, t) && t != ""
    ensures t in L.TasksAt(es, n, maxEvents) && RestTells(es, n, t, L.TasksAt(es, n, maxEvents)[t])
  {
    var m := n - 1;
    L.TasksStep(es, n, maxEvents);
    NeverBefore(es, m, t);
    L.TaskFieldsAt(es, m, maxEvents, t);
    LedgerFieldsIffSeen(es, m, t);
    if Seen(es, m, t) {
      LedgerRest(es, m, maxEvents, t);
    }
    if es[m].task != "" {
      TouchedRest(L.TasksAt(es, m, maxEvents), es[m], t);
    }
  }

  /** The ledger's tasks too, whatever the bound on its log. A task is shown as halted exactly when it was
      claimed and, with no other status event of its own since, some task's halt came. */
  lemma LedgerTaskTells(es: seq<Event>, n: nat, maxEvents: int, t: Id)
    requires n <= |es| && t != ""
    ensures var tasks := L.LedgerAt(es, n, maxEvents).tasks;
            && (t in tasks <==> Seen(es, n, t))
            && (t in tasks ==>
                  && tasks[t].fields.status == (if HaltedSince(es, n, t) then Halted else LastStatus(es, n, t))
                  && GatewayTells(es, n, t, tasks[t].fields.gateway, true)
                  && SharedTells(es, n, t, tasks[t].fields, "Unknown")
                  && RestTells(es, n, t, tasks[t]))
  {
    L.TaskFieldsAt(es, n, maxEvents, t);
    LedgerFieldsIffSeen(es, n, t);
    if Seen(es, n, t) {
      LedgerShared(es, n, t);
      LedgerGateway(es, n, t);
      LedgerStatus(es, n, t);
      LedgerRest(es, n, maxEvents, t);
    }
  }
}
