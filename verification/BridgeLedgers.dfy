/** The bridge's in-memory ledger: a bounded event log beside an incrementally maintained projection. */
module BridgeLedgers {
  import opened Collections
  import opened EventDag

  datatype Task = Task(fields: Fields, root: Option<Id>, lastUpdated: string, children: seq<Id>)

  datatype Heartbeat = Heartbeat(lastSeen: string, payload: Payload)

  datatype LaneNote = LaneNote(holder: string, kind: Kind, ts: string)

  datatype Dlq = Dlq(source: string, payload: Payload, ts: string)

  datatype Ledger = Ledger(events: seq<Event>, tasks: map<Id, Task>, roots: set<Id>,
                           heartbeats: map<string, Heartbeat>, lanes: map<string, LaneNote>, dlq: seq<Dlq>)

  const EMPTY := Ledger([], map[], {}, map[], map[], [])

  /** Python's s[start:] for any integer start. */
  function SliceFrom<T>(s: seq<T>, start: int): seq<T> {
    if start >= |s| then []
    else if start >= 0 then s[start..]
    else if |s| + start <= 0 then s
    else s[|s| + start..]
  }

  function Retain(events: seq<Event>, e: Event, maxEvents: int): seq<Event> {
    var all := events + [e];
    if |all| > maxEvents then SliceFrom(all, -maxEvents) else all
  }

  function Linked(tasks: map<Id, Task>, parent: Option<Id>, c: Id): map<Id, Task> {
    if parent.Some? && parent.value != "" && parent.value in tasks && c !in tasks[parent.value].children then
      var p := tasks[parent.value];
      tasks[parent.value := p.(children := p.children + [c])]
    else tasks
  }

  function HaltAll(tasks: map<Id, Task>, e: Event): map<Id, Task> {
    map t | t in tasks :: tasks[t].(fields := HaltedBy(tasks[t].fields, e))
  }

  /** The event's own task after the event, halts and links aside. */
  function Touched(tasks: map<Id, Task>, e: Event): Task {
    var before := if e.task in tasks then Some(tasks[e.task].fields) else None;
    var root := if e.task in tasks then tasks[e.task].root else None;
    Task(LedgerApplied(before, e),
         if e.kind.TaskDrafted? then e.payload.root else root,
         e.ts,
         if e.task in tasks then tasks[e.task].children else [])
  }

  function TaskStep(tasks: map<Id, Task>, e: Event): map<Id, Task> {
    var t := Touched(tasks, e);
    Linked(HaltAll(tasks[e.task := t], e), t.fields.parent, e.task)
  }

  function SystemStep(l: Ledger, e: Event): Ledger {
    match e.kind
    case HeartbeatPing => l.(heartbeats := l.heartbeats[e.source := Heartbeat(e.ts, e.payload)])
    case LaneContested | LaneAcquired =>
      l.(lanes := l.lanes[GetOr(e.payload.lane, "unknown") := LaneNote(GetOr(e.payload.gateway, e.source), e.kind, e.ts)])
    case DlqEntry => l.(dlq := l.dlq + [Dlq(e.source, e.payload, e.ts)])
    case _ => l
  }

  /** Events without a task pass the tasks and roots by. */
  function NextTasks(tasks: map<Id, Task>, e: Event): map<Id, Task> {
    if e.task == "" then tasks else TaskStep(tasks, e)
  }

  function NextRoots(roots: set<Id>, e: Event): set<Id> {
    if e.task != "" && e.kind.TaskDrafted? && e.payload.root.Some? && e.payload.root.value != ""
    then roots + {e.payload.root.value} else roots
  }

  function Step(l: Ledger, e: Event, maxEvents: int): Ledger {
    var s := if e.task == "" then SystemStep(l, e) else l;
    Ledger(Retain(l.events, e, maxEvents), NextTasks(l.tasks, e), NextRoots(l.roots, e), s.heartbeats, s.lanes, s.dlq)
  }

  function LedgerAt(es: seq<Event>, n: nat, maxEvents: int): Ledger
    requires n <= |es|
  {
    if n == 0 then EMPTY else Step(LedgerAt(es, n - 1, maxEvents), es[n - 1], maxEvents)
  }

  // Two parts of the ledger evolve by themselves.

  function LogAt(es: seq<Event>, n: nat, maxEvents: int): seq<Event>
    requires n <= |es|
  {
    if n == 0 then [] else Retain(LogAt(es, n - 1, maxEvents), es[n - 1], maxEvents)
  }

  lemma StepLog(l: Ledger, e: Event, maxEvents: int)
    ensures Step(l, e, maxEvents).events == Retain(l.events, e, maxEvents)
    ensures Step(l, e, maxEvents).tasks == NextTasks(l.tasks, e)
  {}

  function EventsAt(es: seq<Event>, n: nat, maxEvents: int): seq<Event>
    requires n <= |es|
  {
    LedgerAt(es, n, maxEvents).events
  }

  lemma EventsStep(es: seq<Event>, n: nat, maxEvents: int)
    requires 0 < n <= |es|
    ensures EventsAt(es, n, maxEvents) == Retain(EventsAt(es, n - 1, maxEvents), es[n - 1], maxEvents)
  {
    StepLog(LedgerAt(es, n - 1, maxEvents), es[n - 1], maxEvents);
  }

  lemma {:induction false} LogPart(es: seq<Event>, n: nat, maxEvents: int)
    requires n <= |es|
    ensures EventsAt(es, n, maxEvents) == LogAt(es, n, maxEvents)
  {
    if n == 0 {
      assert EventsAt(es, 0, maxEvents) == [];
    } else {
      LogPart(es, n - 1, maxEvents);
      EventsStep(es, n, maxEvents);
    }
  }

  function TasksAt(es: seq<Event>, n: nat, maxEvents: int): map<Id, Task>
    requires n <= |es|
  {
    LedgerAt(es, n, maxEvents).tasks
  }

  lemma TasksStep(es: seq<Event>, n: nat, maxEvents: int)
    requires 0 < n <= |es|
    ensures TasksAt(es, n, maxEvents) == NextTasks(TasksAt(es, n - 1, maxEvents), es[n - 1])
  {}

  class BridgeLedger {
    const maxEvents: int
    var events: seq<Event>
    var tasks: map<Id, Task>
    var roots: set<Id>
    var heartbeats: map<string, Heartbeat>
    var lanes: map<string, LaneNote>
    var dlq: seq<Dlq>

    function View(): Ledger
      reads this
    {
      Ledger(events, tasks, roots, heartbeats, lanes, dlq)
    }

    constructor (maxEvents: int)
      ensures this.maxEvents == maxEvents && View() == EMPTY
    {
      this.maxEvents := maxEvents;
      events, tasks, roots, heartbeats, lanes, dlq := [], map[], {}, map[], map[], [];
    }

    method Link(parentId: Option<Id>, c: Id)
      modifies this`tasks
      ensures tasks == Linked(old(tasks), parentId, c)
    {
      if parentId.Some? && parentId.value != "" && parentId.value in tasks {
        var parent := tasks[parentId.value];
        if c !in parent.children {
          tasks := tasks[parentId.value := parent.(children := parent.children + [c])];
        }
      }
    }

    method HaltExecuting(ghost e: Event)
      requires e.kind.SystemHalt?
      modifies this`tasks
      ensures tasks == HaltAll(old(tasks), e)
    {
      var ids := tasks.Keys;
      while ids != {}
        invariant ids <= tasks.Keys == old(tasks).Keys
        invariant forall t :: t in ids ==> tasks[t] == old(tasks)[t]
        invariant forall t :: t in tasks && t !in ids ==>
                    tasks[t] == old(tasks)[t].(fields := HaltedBy(old(tasks)[t].fields, e))
        decreases ids
      {
        var t :| t in ids;
        ids := ids - {t};
        if tasks[t].fields.status.Executing? {
          tasks := tasks[t := tasks[t].(fields := tasks[t].fields.(status := Halted))];
        }
      }
      assert tasks == HaltAll(old(tasks), e);
    }

    method Store(e: Event)
      modifies this`events
      ensures events == Retain(old(events), e, maxEvents)
    {
      events := events + [e];
      if |events| > maxEvents {
        events := SliceFrom(events, -maxEvents);
      }
    }

    method ProcessEvent(e: Event) returns (affected: Option<Task>)
      modifies this
      ensures View() == Step(old(View()), e, maxEvents)
      ensures affected == if e.task != "" then Some(tasks[e.task]) else None
    {
      Store(e);
      if e.task == "" {
        ProcessSystemEvent(e);
        return None;
      }
      ghost var before := tasks;
      Touch(e);
      var parent := tasks[e.task].fields.parent;
      if e.kind.TaskDrafted? {
        Link(parent, e.task);
      }
      if e.kind.SystemHalt? {
        HaltExecuting(e);
      }
      SettledTasks(before, e);
      Link(parent, e.task);
      return Some(tasks[e.task]);
    }

    /** Create the task if it is new, and apply the event to it. */
    method Touch(e: Event)
      modifies this`tasks, this`roots
      ensures tasks == old(tasks)[e.task := Touched(old(tasks), e)]
      ensures e.task != "" ==> roots == NextRoots(old(roots), e)
    {
      if e.task !in tasks {
        tasks := tasks[e.task := Task(NewFields("Unknown", e.ts), None, e.ts, [])];
      }
      var task := tasks[e.task].(lastUpdated := e.ts, fields := Applied(tasks[e.task].fields, e));
      match e.kind {
        case TaskDrafted =>
          task := task.(root := e.payload.root, fields := task.fields.(parent := e.payload.parent));
          if task.root.Some? && task.root.value != "" {
            roots := roots + {task.root.value};
          }
        case LeaseGranted =>
          task := task.(fields := task.fields.(gateway := Some(GetOr(e.payload.gateway, e.source))));
        case _ =>
      }
      tasks := tasks[e.task := task];
      assert tasks == old(tasks)[e.task := Touched(old(tasks), e)];
    }

    method ProcessSystemEvent(e: Event)
      modifies this`heartbeats, this`lanes, this`dlq
      ensures View() == SystemStep(old(View()), e)
    {
      match e.kind {
        case HeartbeatPing =>
          heartbeats := heartbeats[e.source := Heartbeat(e.ts, e.payload)];
        case LaneContested =>
          lanes := lanes[GetOr(e.payload.lane, "unknown") := LaneNote(GetOr(e.payload.gateway, e.source), e.kind, e.ts)];
        case LaneAcquired =>
          lanes := lanes[GetOr(e.payload.lane, "unknown") := LaneNote(GetOr(e.payload.gateway, e.source), e.kind, e.ts)];
        case DlqEntry =>
          dlq := dlq + [Dlq(e.source, e.payload, e.ts)];
        case _ =>
      }
    }
  }

  /** Linking twice is linking once, and only a halt halts. */
  lemma SettledTasks(before: map<Id, Task>, e: Event)
    ensures var m, t := before[e.task := Touched(before, e)], Touched(before, e);
            && (!e.kind.SystemHalt? ==> HaltAll(m, e) == m)
            && Linked(Linked(m, t.fields.parent, e.task), t.fields.parent, e.task) == Linked(m, t.fields.parent, e.task)
  {
    var m := before[e.task := Touched(before, e)];
    if !e.kind.SystemHalt? {
      forall u | u in m ensures HaltAll(m, e)[u] == m[u] {}
    }
  }

  // ---- the event log ----

  function Window(n: nat, maxEvents: int): nat { if maxEvents > 0 && n > maxEvents then n - maxEvents else 0 }

  lemma RetainOne(es: seq<Event>, n: nat, maxEvents: int)
    requires 0 < n <= |es|
    ensures Retain(if maxEvents >= 0 then es[Window(n - 1, maxEvents)..n - 1] else [], es[n - 1], maxEvents)
         == if maxEvents >= 0 then es[Window(n, maxEvents)..n] else []
  {
    if maxEvents >= 0 {
      var lo := Window(n - 1, maxEvents);
      var all := es[lo..n - 1] + [es[n - 1]];
      assert all == es[lo..n];
      if |all| > maxEvents && maxEvents > 0 {
        assert SliceFrom(all, -maxEvents) == all[|all| - maxEvents..] == es[n - maxEvents..n];
      }
    }
  }

  /** With a positive bound the ledger retains exactly the last maxEvents events; a bound of zero retains
      everything, because s[-0:] is the whole list; a negative bound retains nothing. */
  lemma {:induction false} RetainedEvents(es: seq<Event>, n: nat, maxEvents: int)
    requires n <= |es|
    ensures LogAt(es, n, maxEvents) == if maxEvents >= 0 then es[Window(n, maxEvents)..n] else []
  {
    if n == 0 {
    } else {
      RetainedEvents(es, n - 1, maxEvents);
      RetainOne(es, n, maxEvents);
    }
  }

  function LastOf(es: seq<Event>, k: int): seq<Event> {
    if k <= 0 then [] else if |es| > k then es[|es| - k..] else es
  }

  /** The log is the last max(0, maxEvents) events of every stream exactly when the bound is not zero. */
  lemma RetainsLastIff(maxEvents: int)
    ensures (forall es: seq<Event> :: LedgerAt(es, |es|, maxEvents).events == LastOf(es, maxEvents)) <==> maxEvents != 0
  {
    forall es: seq<Event> ensures maxEvents != 0 ==> LedgerAt(es, |es|, maxEvents).events == LastOf(es, maxEvents) {
      LogPart(es, |es|, maxEvents);
      RetainedEvents(es, |es|, maxEvents);
    }
    if maxEvents == 0 {
      var es := [Event("", "", OtherKind, Payload(None, None, None, None, None, None), 0.0, "", "")];
      LogPart(es, 1, 0);
      RetainedEvents(es, 1, 0);
      assert LedgerAt(es, |es|, maxEvents).events == es != LastOf(es, 0);
    }
  }

  // ---- the tasks ----

  lemma TaskStepFields(tasks: map<Id, Task>, e: Event, t: Id)
    ensures var tasks' := TaskStep(tasks, e);
            var before := if t in tasks then Some(tasks[t].fields) else None;
            && (t in tasks' <==> t in tasks || t == e.task)
            && (t in tasks' ==> tasks'[t].fields == HaltedBy(if t == e.task then LedgerApplied(before, e) else tasks[t].fields, e))
  {}

  /** A task's fields depend on the stream, never on the log's bound: what was dropped still counts. */
  lemma {:induction false} TaskFieldsAt(es: seq<Event>, n: nat, maxEvents: int, t: Id)
    requires n <= |es| && t != ""
    ensures var tasks := TasksAt(es, n, maxEvents);
            && (t in tasks <==> LedgerFields(es, n, t).Some?)
            && (t in tasks ==> tasks[t].fields == LedgerFields(es, n, t).value)
  {
    if n == 0 {
      assert TasksAt(es, 0, maxEvents) == map[];
    } else {
      TaskFieldsAt(es, n - 1, maxEvents, t);
      TasksStep(es, n, maxEvents);
      if es[n - 1].task != "" {
        TaskStepFields(TasksAt(es, n - 1, maxEvents), es[n - 1], t);
      }
    }
  }

  function CostOfTask(es: seq<Event>, n: nat, t: Id): real
    requires n <= |es|
  {
    if n == 0 then 0.0 else CostOfTask(es, n - 1, t) + if es[n - 1].task == t then es[n - 1].cost else 0.0
  }

  lemma {:induction false} SpentFields(es: seq<Event>, n: nat, t: Id)
    requires n <= |es| && t != ""
    ensures LedgerFields(es, n, t).None? ==> CostOfTask(es, n, t) == 0.0
    ensures LedgerFields(es, n, t).Some? ==> LedgerFields(es, n, t).value.spent == CostOfTask(es, n, t)
  {
    if n == 0 {
    } else {
      SpentFields(es, n - 1, t);
    }
  }

  /** compute_spent sums the task's whole history, however little of it the log retains. */
  lemma SpentIsWholeHistory(es: seq<Event>, maxEvents: int, t: Id)
    requires t in LedgerAt(es, |es|, maxEvents).tasks && t != ""
    ensures LedgerAt(es, |es|, maxEvents).tasks[t].fields.spent == CostOfTask(es, |es|, t)
  {
    TaskFieldsAt(es, |es|, maxEvents, t);
    SpentFields(es, |es|, t);
  }

  // ---- edges ----

  /** After event i of task c, c's parent on record is p, and p is known by then. */
  ghost predicate NamesParent(es: seq<Event>, i: nat, p: Id, c: Id)
    requires i < |es|
  {
    && es[i].task == c && p != "" && Seen(es, i + 1, p)
    && LedgerFields(es, i + 1, c).Some? && LedgerFields(es, i + 1, c).value.parent == Some(p)
  }

  ghost predicate LedgerEdge(es: seq<Event>, n: nat, p: Id, c: Id)
    requires n <= |es|
  {
    exists i :: 0 <= i < n && NamesParent(es, i, p, c)
  }

  lemma LedgerEdgeStep(es: seq<Event>, n: nat, p: Id, c: Id)
    requires 0 < n <= |es|
    ensures LedgerEdge(es, n, p, c) <==> LedgerEdge(es, n - 1, p, c) || NamesParent(es, n - 1, p, c)
  {
    if LedgerEdge(es, n - 1, p, c) {
      var i :| 0 <= i < n - 1 && NamesParent(es, i, p, c);
      assert 0 <= i < n && NamesParent(es, i, p, c);
    }
  }

  function ChildrenIn(tasks: map<Id, Task>, p: Id): seq<Id> {
    if p in tasks then tasks[p].children else []
  }

  lemma TaskStepChildren(tasks: map<Id, Task>, e: Event, p: Id, c: Id)
    requires p in tasks || p == e.task
    ensures var tasks' := TaskStep(tasks, e);
            && p in tasks' && e.task in tasks'
            && (c in tasks'[p].children <==>
                  c in ChildrenIn(tasks, p) || (c == e.task && p != "" && tasks'[e.task].fields.parent == Some(p)))
  {}

  lemma {:induction false} NoTaskNoFields(es: seq<Event>, n: nat)
    requires n <= |es|
    ensures LedgerFields(es, n, "").None?
  {
    if n == 0 {
    } else {
      NoTaskNoFields(es, n - 1);
    }
  }

  lemma EdgelessStep(es: seq<Event>, n: nat, p: Id, c: Id)
    requires 0 < n <= |es| && es[n - 1].task == ""
    ensures !NamesParent(es, n - 1, p, c)
  {
    NoTaskNoFields(es, n);
  }

  lemma EdgeStep(es: seq<Event>, n: nat, maxEvents: int, p: Id, c: Id)
    requires 0 < n <= |es| && p != ""
    ensures c in ChildrenIn(TasksAt(es, n, maxEvents), p)
       <==> c in ChildrenIn(TasksAt(es, n - 1, maxEvents), p) || NamesParent(es, n - 1, p, c)
  {
    var e := es[n - 1];
    TasksStep(es, n, maxEvents);
    if e.task == "" {
      EdgelessStep(es, n, p, c);
    } else {
      TaskFieldsAt(es, n, maxEvents, p);
      LedgerFieldsIffSeen(es, n, p);
      TaskFieldsAt(es, n, maxEvents, e.task);
      TaskStepFields(TasksAt(es, n - 1, maxEvents), e, p);
      if p in TasksAt(es, n, maxEvents) {
        TaskStepChildren(TasksAt(es, n - 1, maxEvents), e, p, c);
      }
    }
  }

  /** The ledger lists c under p. */
  ghost predicate Lists(es: seq<Event>, n: nat, maxEvents: int, p: Id, c: Id)
    requires n <= |es|
  {
    c in ChildrenIn(TasksAt(es, n, maxEvents), p)
  }

  lemma ListsStep(es: seq<Event>, n: nat, maxEvents: int, p: Id, c: Id)
    requires 0 < n <= |es| && p != "" && (Lists(es, n - 1, maxEvents, p, c) <==> LedgerEdge(es, n - 1, p, c))
    ensures Lists(es, n, maxEvents, p, c) <==> LedgerEdge(es, n, p, c)
  {
    EdgeStep(es, n, maxEvents, p, c);
    LedgerEdgeStep(es, n, p, c);
  }

  /** The ledger lists c under p exactly when some event of c found p, the parent then on record, known. */
  lemma {:induction false} ChildrenAreEdges(es: seq<Event>, n: nat, maxEvents: int, p: Id, c: Id)
    requires n <= |es| && p != ""
    ensures Lists(es, n, maxEvents, p, c) <==> LedgerEdge(es, n, p, c)
  {
    if n == 0 {
      assert TasksAt(es, 0, maxEvents) == map[];
    } else {
      ChildrenAreEdges(es, n - 1, maxEvents, p, c);
      ListsStep(es, n, maxEvents, p, c);
    }
  }

  // ---- the tables beside the tasks ----

  predicate Beats(e: Event, gateway: string) { e.task == "" && e.kind.HeartbeatPing? && e.source == gateway }

  predicate Notes(e: Event, lane: string) {
    e.task == "" && (e.kind.LaneContested? || e.kind.LaneAcquired?) && GetOr(e.payload.lane, "unknown") == lane
  }

  predicate IsDead(e: Event) { e.task == "" && e.kind.DlqEntry? }

  predicate NamesRoot(e: Event, root: Id) {
    e.task != "" && e.kind.TaskDrafted? && e.payload.root == Some(root) && root != ""
  }

  /** The tables that the events without a task, and the drafts' roots, go to. */
  datatype Tables = Tables(heartbeats: map<string, Heartbeat>, lanes: map<string, LaneNote>, dlq: seq<Dlq>, roots: set<Id>)

  function TablesOf(l: Ledger): Tables { Tables(l.heartbeats, l.lanes, l.dlq, l.roots) }

  function TablesAt(es: seq<Event>, n: nat, maxEvents: int): Tables
    requires n <= |es|
  {
    TablesOf(LedgerAt(es, n, maxEvents))
  }

  function NextBeats(beats: map<string, Heartbeat>, e: Event): map<string, Heartbeat> {
    if Beats(e, e.source) then beats[e.source := Heartbeat(e.ts, e.payload)] else beats
  }

  function NextLanes(lanes: map<string, LaneNote>, e: Event): map<string, LaneNote> {
    var lane := GetOr(e.payload.lane, "unknown");
    if Notes(e, lane) then lanes[lane := LaneNote(GetOr(e.payload.gateway, e.source), e.kind, e.ts)] else lanes
  }

  function NextDlq(dlq: seq<Dlq>, e: Event): seq<Dlq> {
    if IsDead(e) then dlq + [Dlq(e.source, e.payload, e.ts)] else dlq
  }

  lemma StepTables(l: Ledger, e: Event, maxEvents: int)
    ensures TablesOf(Step(l, e, maxEvents))
         == Tables(NextBeats(l.heartbeats, e), NextLanes(l.lanes, e), NextDlq(l.dlq, e), NextRoots(l.roots, e))
  {}

  lemma TablesStep(es: seq<Event>, n: nat, maxEvents: int)
    requires 0 < n <= |es|
    ensures var t, e := TablesAt(es, n - 1, maxEvents), es[n - 1];
            TablesAt(es, n, maxEvents)
            == Tables(NextBeats(t.heartbeats, e), NextLanes(t.lanes, e), NextDlq(t.dlq, e), NextRoots(t.roots, e))
  {
    StepTables(LedgerAt(es, n - 1, maxEvents), es[n - 1], maxEvents);
  }

  /** Event j is the gateway's last heartbeat among the first n events. */
  ghost predicate LastBeat(es: seq<Event>, j: nat, n: nat, g: string) {
    j < n <= |es| && Beats(es[j], g) && forall k :: j < k < n ==> !Beats(es[k], g)
  }

  ghost predicate LastNote(es: seq<Event>, j: nat, n: nat, lane: string) {
    j < n <= |es| && Notes(es[j], lane) && forall k :: j < k < n ==> !Notes(es[k], lane)
  }

  /** A gateway's entry is the last heartbeat it sent; without an entry it sent none. */
  ghost predicate BeatIsLast(es: seq<Event>, n: nat, g: string, beats: map<string, Heartbeat>)
    requires n <= |es|
  {
    if g in beats then exists j: nat :: LastBeat(es, j, n, g) && beats[g] == Heartbeat(es[j].ts, es[j].payload)
    else forall j :: 0 <= j < n ==> !Beats(es[j], g)
  }

  /** A lane's note is the last one about it; without a note there was none. */
  ghost predicate NoteIsLast(es: seq<Event>, n: nat, lane: string, lanes: map<string, LaneNote>)
    requires n <= |es|
  {
    if lane in lanes
    then exists j: nat :: LastNote(es, j, n, lane)
                       && lanes[lane] == LaneNote(GetOr(es[j].payload.gateway, es[j].source), es[j].kind, es[j].ts)
    else forall j :: 0 <= j < n ==> !Notes(es[j], lane)
  }

  lemma BeatStep(es: seq<Event>, n: nat, g: string, beats: map<string, Heartbeat>)
    requires 0 < n <= |es| && BeatIsLast(es, n - 1, g, beats)
    ensures BeatIsLast(es, n, g, NextBeats(beats, es[n - 1]))
  {
    if Beats(es[n - 1], g) {
      assert LastBeat(es, n - 1, n, g);
    } else if g in beats {
      var j: nat :| LastBeat(es, j, n - 1, g) && beats[g] == Heartbeat(es[j].ts, es[j].payload);
      assert LastBeat(es, j, n, g);
    }
  }

  lemma NoteStep(es: seq<Event>, n: nat, lane: string, lanes: map<string, LaneNote>)
    requires 0 < n <= |es| && NoteIsLast(es, n - 1, lane, lanes)
    ensures NoteIsLast(es, n, lane, NextLanes(lanes, es[n - 1]))
  {
    if Notes(es[n - 1], lane) {
      assert LastNote(es, n - 1, n, lane);
    } else if lane in lanes {
      var j: nat :| LastNote(es, j, n - 1, lane)
                 && lanes[lane] == LaneNote(GetOr(es[j].payload.gateway, es[j].source), es[j].kind, es[j].ts);
      assert LastNote(es, j, n, lane);
    }
  }

  lemma {:induction false} LastEntriesStand(es: seq<Event>, n: nat, maxEvents: int, g: string, lane: string)
    requires n <= |es|
    ensures BeatIsLast(es, n, g, TablesAt(es, n, maxEvents).heartbeats)
    ensures NoteIsLast(es, n, lane, TablesAt(es, n, maxEvents).lanes)
  {
    if n == 0 {
      assert TablesAt(es, 0, maxEvents) == TablesOf(EMPTY);
    } else {
      LastEntriesStand(es, n - 1, maxEvents, g, lane);
      TablesStep(es, n, maxEvents);
      BeatStep(es, n, g, TablesAt(es, n - 1, maxEvents).heartbeats);
      NoteStep(es, n, lane, TablesAt(es, n - 1, maxEvents).lanes);
    }
  }

  ghost predicate LettersOf(dlq: seq<Dlq>, dead: seq<Event>) {
    |dlq| == |dead| && forall k :: 0 <= k < |dead| ==> dlq[k] == Dlq(dead[k].source, dead[k].payload, dead[k].ts)
  }

  lemma FilterLast(es: seq<Event>, n: nat)
    requires 0 < n <= |es|
    ensures Filter(es[..n], IsDead) == Filter(es[..n - 1], IsDead) + if IsDead(es[n - 1]) then [es[n - 1]] else []
  {
    assert es[..n] == es[..n - 1] + [es[n - 1]];
    FilterAppend(es[..n - 1], [es[n - 1]], IsDead);
    assert [es[n - 1]][1..] == [];
  }

  lemma LetterStep(es: seq<Event>, n: nat, dlq: seq<Dlq>)
    requires 0 < n <= |es| && LettersOf(dlq, Filter(es[..n - 1], IsDead))
    ensures LettersOf(NextDlq(dlq, es[n - 1]), Filter(es[..n], IsDead))
  {
    FilterLast(es, n);
  }

  ghost predicate RootIsDrafted(es: seq<Event>, n: nat, root: Id, roots: set<Id>)
    requires n <= |es|
  {
    root in roots <==> exists j :: 0 <= j < n && NamesRoot(es[j], root)
  }

  lemma RootStep(es: seq<Event>, n: nat, root: Id, roots: set<Id>)
    requires 0 < n <= |es| && RootIsDrafted(es, n - 1, root, roots)
    ensures RootIsDrafted(es, n, root, NextRoots(roots, es[n - 1]))
  {
    if root in roots {
      var j :| 0 <= j < n - 1 && NamesRoot(es[j], root);
      assert 0 <= j < n;
    }
  }

  lemma {:induction false} NoLetterIsDropped(es: seq<Event>, n: nat, maxEvents: int)
    requires n <= |es|
    ensures LettersOf(TablesAt(es, n, maxEvents).dlq, Filter(es[..n], IsDead))
  {
    if n == 0 {
      assert TablesAt(es, 0, maxEvents) == TablesOf(EMPTY);
    } else {
      NoLetterIsDropped(es, n - 1, maxEvents);
      TablesStep(es, n, maxEvents);
      LetterStep(es, n, TablesAt(es, n - 1, maxEvents).dlq);
    }
  }

  lemma {:induction false} NoRootIsDropped(es: seq<Event>, n: nat, maxEvents: int, root: Id)
    requires n <= |es|
    ensures RootIsDrafted(es, n, root, TablesAt(es, n, maxEvents).roots)
  {
    if n == 0 {
      assert TablesAt(es, 0, maxEvents) == TablesOf(EMPTY);
    } else {
      NoRootIsDropped(es, n - 1, maxEvents, root);
      TablesStep(es, n, maxEvents);
      RootStep(es, n, root, TablesAt(es, n - 1, maxEvents).roots);
    }
  }

  /** Whatever the bound on the log: heartbeats and lane notes are the last ones sent, no dead letter and no
      root prompt is missing. */
  lemma TablesTellTheStream(es: seq<Event>, n: nat, maxEvents: int, g: string, lane: string, root: Id)
    requires n <= |es|
    ensures var l := LedgerAt(es, n, maxEvents);
            && BeatIsLast(es, n, g, l.heartbeats) && NoteIsLast(es, n, lane, l.lanes)
            && LettersOf(l.dlq, Filter(es[..n], IsDead)) && RootIsDrafted(es, n, root, l.roots)
  {
    LastEntriesStand(es, n, maxEvents, g, lane);
    NoLetterIsDropped(es, n, maxEvents);
    NoRootIsDropped(es, n, maxEvents, root);
  }
}
