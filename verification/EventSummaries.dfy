/** The orchestrator's event buffers: each task's events are buffered and, when a threshold is reached,
    replaced by a summary that says which events it supersedes. */
module EventSummaries {
  import opened Collections

  type TaskId = nat
  type EventId = nat

  datatype Kind = DecisionMade | TaskFailed | OtherKind

  /** size is the length of the payload's text; a payload value that is no text is None. */
  datatype Event = Event(id: EventId, task: TaskId, kind: Kind, payload: map<string, Option<string>>, size: nat)

  datatype Summary = Summary(task: TaskId, decisions: seq<string>, findings: seq<string>, blockers: seq<string>,
                             actions: seq<string>, tokens: nat, supersedes: seq<EventId>)

  datatype Config = Config(maxEvents: int, maxTokens: int)

  // ---- what a summary extracts ----

  datatype Column = Decisions | Findings | Blockers | Actions

  function Lookup(e: Event, key: string): Option<string> { if key in e.payload then e.payload[key] else Some("") }

  /** The one column an event contributes to, if any, and the value. */
  function Contribution(e: Event): Option<(Column, Option<string>)> {
    if e.kind.DecisionMade? then Some((Decisions, Lookup(e, "decision")))
    else if e.kind.TaskFailed? then Some((Blockers, Lookup(e, "error")))
    else if "finding" in e.payload then Some((Findings, Lookup(e, "finding")))
    else if "next_action" in e.payload then Some((Actions, Lookup(e, "next_action")))
    else None
  }

  /** The values of one column, in the order of the events. */
  function Collected(events: seq<Event>, column: Column, n: nat): seq<Option<string>>
    requires n <= |events|
  {
    if n == 0 then []
    else
      var c := Contribution(events[n - 1]);
      Collected(events, column, n - 1) + if c.Some? && c.value.0 == column then [c.value.1] else []
  }

  function Top<T>(values: seq<T>, n: nat): (r: seq<T>)
    ensures |r| <= n
  {
    if |values| <= n then values else values[..n]
  }

  function Room(column: Column): nat { if column.Decisions? || column.Findings? then 5 else 3 }

  /** The values a summary keeps. */
  function Kept(events: seq<Event>, column: Column): (r: seq<Option<string>>)
    ensures |r| <= Room(column)
  {
    Top(Collected(events, column, |events|), Room(column))
  }

  predicate AllText(values: seq<Option<string>>) { forall i :: 0 <= i < |values| ==> values[i].Some? }

  function Texts(values: seq<Option<string>>): (r: seq<string>)
    requires AllText(values)
    ensures |r| == |values|
  {
    seq(|values|, i requires 0 <= i < |values| => values[i].value)
  }

  function Ids(events: seq<Event>): (r: seq<EventId>)
    ensures |r| == |events|
  {
    seq(|events|, i requires 0 <= i < |events| => events[i].id)
  }

  /** A summary can be made: what it keeps is text. What it drops does not matter. */
  predicate Readable(events: seq<Event>) {
    AllText(Kept(events, Decisions)) && AllText(Kept(events, Findings))
    && AllText(Kept(events, Blockers)) && AllText(Kept(events, Actions))
  }

  function Summarized(task: TaskId, events: seq<Event>, tokens: nat): Summary
    requires Readable(events)
  {
    Summary(task, Texts(Kept(events, Decisions)), Texts(Kept(events, Findings)),
            Texts(Kept(events, Blockers)), Texts(Kept(events, Actions)), tokens, Ids(events))
  }

  // ---- one task ----

  datatype TaskState = TaskState(buffer: seq<Event>, tokens: nat, summaries: seq<Summary>)

  datatype Outcome = Buffered | Idle | Cleared | Unreadable | PublishFailed

  function Taken(s: TaskState, e: Event): TaskState {
    TaskState(s.buffer + [e], s.tokens + e.size / 4, s.summaries)
  }

  /** A value that cannot be read and a failed publish raise and leave the buffer as it is; by the time of
      the publish the summary is already stored. */
  function Summarize(task: TaskId, s: TaskState, published: bool): (TaskState, Outcome) {
    if s.buffer == [] then (s, Idle)
    else if !Readable(s.buffer) then (s, Unreadable)
    else
      var summaries := s.summaries + [Summarized(task, s.buffer, s.tokens)];
      if published then (TaskState([], 0, summaries), Cleared) else (TaskState(s.buffer, s.tokens, summaries), PublishFailed)
  }

  function Handle(c: Config, s: TaskState, e: Event, published: bool): (TaskState, Outcome) {
    var s1 := Taken(s, e);
    if |s1.buffer| >= c.maxEvents || s1.tokens >= c.maxTokens then Summarize(e.task, s1, published) else (s1, Buffered)
  }

  datatype Input = Input(event: Event, published: bool)

  /** One task after the first n of its inputs. */
  function StateAfter(c: Config, inputs: seq<Input>, n: nat): TaskState
    requires n <= |inputs|
  {
    if n == 0 then TaskState([], 0, [])
    else Handle(c, StateAfter(c, inputs, n - 1), inputs[n - 1].event, inputs[n - 1].published).0
  }

  function OutcomeAt(c: Config, inputs: seq<Input>, n: nat): Outcome
    requires n < |inputs|
  {
    Handle(c, StateAfter(c, inputs, n), inputs[n].event, inputs[n].published).1
  }

  // ---- many tasks ----

  /** A task's own inputs among the first n of a stream. */
  function Own(inputs: seq<Input>, n: nat, task: TaskId): (r: seq<Input>)
    requires n <= |inputs|
    ensures forall x :: x in r ==> x.event.task == task
  {
    if n == 0 then []
    else Own(inputs, n - 1, task) + if inputs[n - 1].event.task == task then [inputs[n - 1]] else []
  }

  lemma {:induction false} StateOfPrefix(c: Config, own: seq<Input>, x: Input, n: nat)
    requires n <= |own|
    ensures StateAfter(c, own + [x], n) == StateAfter(c, own, n)
  {
    if n == 0 {
      assert StateAfter(c, own + [x], 0) == StateAfter(c, own, 0);
    } else {
      StateOfPrefix(c, own, x, n - 1);
    }
  }

  /** A task's state after a stream of all tasks' inputs. */
  function TaskAfter(c: Config, inputs: seq<Input>, n: nat, task: TaskId): TaskState
    requires n <= |inputs|
  {
    StateAfter(c, Own(inputs, n, task), |Own(inputs, n, task)|)
  }

  lemma OneMore(c: Config, own: seq<Input>, x: Input)
    ensures StateAfter(c, own + [x], |own| + 1) == Handle(c, StateAfter(c, own + [x], |own|), x.event, x.published).0
  {}

  lemma TaskAfterStep(c: Config, inputs: seq<Input>, n: nat, task: TaskId)
    requires n < |inputs|
    ensures TaskAfter(c, inputs, n + 1, task)
         == if inputs[n].event.task == task then Handle(c, TaskAfter(c, inputs, n, task), inputs[n].event, inputs[n].published).0
            else TaskAfter(c, inputs, n, task)
  {
    var own := Own(inputs, n, task);
    if inputs[n].event.task == task {
      StateOfPrefix(c, own, inputs[n], |own|);
      assert Own(inputs, n + 1, task) == own + [inputs[n]];
      OneMore(c, own, inputs[n]);
    } else {
      assert Own(inputs, n + 1, task) == own;
    }
  }

  // ---- the code ----

  class TaskOrchestrator {
    var buffers: map<TaskId, seq<Event>>
    var tokenCounts: map<TaskId, nat>
    var summaries: map<TaskId, seq<Summary>>
    const config: Config

    function At(task: TaskId): TaskState
      reads this
    {
      TaskState(if task in buffers then buffers[task] else [], if task in tokenCounts then tokenCounts[task] else 0,
                if task in summaries then summaries[task] else [])
    }

    /** The loop over the events, and the summary; None when a value it keeps is no text. */
    static method Extract(task: TaskId, events: seq<Event>, tokens: nat) returns (r: Option<Summary>)
      ensures r.Some? <==> Readable(events)
      ensures r.Some? ==> r.value == Summarized(task, events, tokens)
    {
      var decisions, findings, blockers, actions := [], [], [], [];
      for i := 0 to |events|
        invariant decisions == Collected(events, Decisions, i) && findings == Collected(events, Findings, i)
        invariant blockers == Collected(events, Blockers, i) && actions == Collected(events, Actions, i)
      {
        var e := events[i];
        if e.kind.DecisionMade? {
          decisions := decisions + [Lookup(e, "decision")];
        } else if e.kind.TaskFailed? {
          blockers := blockers + [Lookup(e, "error")];
        } else if "finding" in e.payload {
          findings := findings + [Lookup(e, "finding")];
        } else if "next_action" in e.payload {
          actions := actions + [Lookup(e, "next_action")];
        }
      }
      decisions, findings, blockers, actions := Top(decisions, 5), Top(findings, 5), Top(blockers, 3), Top(actions, 3);
      if !(AllText(decisions) && AllText(findings) && AllText(blockers) && AllText(actions)) {
        return None;
      }
      r := Some(Summary(task, Texts(decisions), Texts(findings), Texts(blockers), Texts(actions), tokens, Ids(events)));
    }

    method SummarizeTask(task: TaskId, published: bool) returns (r: Outcome)
      modifies this
      ensures (At(task), r) == Summarize(task, old(At(task)), published)
      ensures forall t :: t != task ==> At(t) == old(At(t))
    {
      if At(task).buffer == [] {
        return Idle;
      }
      var summary := Extract(task, buffers[task], if task in tokenCounts then tokenCounts[task] else 0);
      if summary.None? {
        return Unreadable;
      }
      summaries := summaries[task := (if task in summaries then summaries[task] else []) + [summary.value]];
      if !published {
        return PublishFailed;
      }
      buffers := buffers[task := []];
      tokenCounts := tokenCounts[task := 0];
      r := Cleared;
    }

    method HandleEvent(e: Event, published: bool) returns (r: Outcome)
      modifies this
      ensures (At(e.task), r) == Handle(config, old(At(e.task)), e, published)
      ensures forall t :: t != e.task ==> At(t) == old(At(t))
    {
      buffers := buffers[e.task := At(e.task).buffer + [e]];
      tokenCounts := tokenCounts[e.task := At(e.task).tokens + e.size / 4];
      assert At(e.task) == Taken(old(At(e.task)), e);
      if |buffers[e.task]| >= config.maxEvents || tokenCounts[e.task] >= config.maxTokens {
        r := SummarizeTask(e.task, published);
      } else {
        r := Buffered;
      }
    }

    /** The subscription's loop, over whatever messages come; an event that raises is logged and done with. */
    method Start(inputs: seq<Input>)
      requires forall t :: At(t) == TaskState([], 0, [])
      modifies this
      ensures forall t :: At(t) == TaskAfter(config, inputs, |inputs|, t)
    {
      for n := 0 to |inputs|
        invariant forall t :: At(t) == TaskAfter(config, inputs, n, t)
      {
        forall t {
          TaskAfterStep(config, inputs, n, t);
        }
        var _ := HandleEvent(inputs[n].event, inputs[n].published);
      }
    }
  }

  // ---- what a task's summaries and buffer account for ----

  function Superseded(summaries: seq<Summary>): seq<EventId> {
    if summaries == [] then [] else Superseded(summaries[..|summaries| - 1]) + summaries[|summaries| - 1].supersedes
  }

  /** Everything a task's summaries and buffer speak of, in order. */
  function Account(s: TaskState): seq<EventId> { Superseded(s.summaries) + Ids(s.buffer) }

  function HandledIds(inputs: seq<Input>, n: nat): (r: seq<EventId>)
    requires n <= |inputs|
    ensures |r| == n
  {
    if n == 0 then [] else HandledIds(inputs, n - 1) + [inputs[n - 1].event.id]
  }

  lemma StepAccounts(c: Config, s: TaskState, e: Event, published: bool)
    ensures var (s', r) := Handle(c, s, e, published);
            && (r != PublishFailed ==> Account(s') == Account(s) + [e.id])
            && (r == PublishFailed ==> |Account(s')| > |Account(s)| + 1)
  {
    var (s', r) := Handle(c, s, e, published);
    assert Ids(s.buffer + [e]) == Ids(s.buffer) + [e.id];
    if r.Cleared? || r.PublishFailed? {
      assert s'.summaries[..|s'.summaries| - 1] == s.summaries;
      assert s'.summaries[|s'.summaries| - 1].supersedes == Ids(s.buffer + [e]);
    }
    if r.Cleared? {
      assert Ids([]) == [];
      assert Account(s') == Superseded(s.summaries) + (Ids(s.buffer) + [e.id]);
    }
  }

  /** Some summary among the first n inputs was not published. */
  predicate SomePublishFailed(c: Config, inputs: seq<Input>, n: nat)
    requires n <= |inputs|
  {
    n != 0 && (SomePublishFailed(c, inputs, n - 1) || OutcomeAt(c, inputs, n - 1) == PublishFailed)
  }

  /** While no publish failed the account is the events handled; from the first failure on it is longer. */
  ghost predicate Balanced(c: Config, inputs: seq<Input>, n: nat)
    requires n <= |inputs|
  {
    var account := Account(StateAfter(c, inputs, n));
    if SomePublishFailed(c, inputs, n) then |account| > n else account == HandledIds(inputs, n)
  }

  lemma BalancedStep(c: Config, inputs: seq<Input>, n: nat)
    requires n < |inputs| && Balanced(c, inputs, n)
    ensures Balanced(c, inputs, n + 1)
  {
    var s, x := StateAfter(c, inputs, n), inputs[n];
    StepAccounts(c, s, x.event, x.published);
    assert StateAfter(c, inputs, n + 1) == Handle(c, s, x.event, x.published).0;
  }

  lemma BalancedStart(c: Config, inputs: seq<Input>)
    ensures Balanced(c, inputs, 0)
  {
    assert StateAfter(c, inputs, 0) == TaskState([], 0, []);
  }

  lemma {:induction false} RunBalances(c: Config, inputs: seq<Input>, n: nat)
    requires n <= |inputs|
    ensures Balanced(c, inputs, n)
  {
    if n == 0 {
      BalancedStart(c, inputs);
    } else {
      RunBalances(c, inputs, n - 1);
      BalancedStep(c, inputs, n - 1);
    }
  }

  /** Of every task, whatever other tasks' events come between: the events that its summaries supersede,
      followed by its buffer, are the events handled, in order and each once, if and only if no publish of its
      summaries failed. A failed one has its events superseded again later. */
  lemma ConservedIffPublished(c: Config, inputs: seq<Input>, n: nat, task: TaskId)
    requires n <= |inputs|
    ensures var own := Own(inputs, n, task);
            Account(TaskAfter(c, inputs, n, task)) == HandledIds(own, |own|) <==> !SomePublishFailed(c, own, |own|)
  {
    var own := Own(inputs, n, task);
    RunBalances(c, own, |own|);
  }

  // ---- thresholds and token counts ----

  /** What the payloads of the first n events are estimated at. */
  function Estimate(events: seq<Event>, n: nat): nat
    requires n <= |events|
  {
    if n == 0 then 0 else Estimate(events, n - 1) + events[n - 1].size / 4
  }

  lemma {:induction false} EstimateOfPrefix(events: seq<Event>, e: Event, n: nat)
    requires n <= |events|
    ensures Estimate(events + [e], n) == Estimate(events, n)
  {
    if n == 0 {
    } else {
      EstimateOfPrefix(events, e, n - 1);
    }
  }

  predicate Counted(s: TaskState) { s.tokens == Estimate(s.buffer, |s.buffer|) }

  lemma TakenCounted(s: TaskState, e: Event)
    requires Counted(s)
    ensures Counted(Taken(s, e))
  {
    EstimateOfPrefix(s.buffer, e, |s.buffer|);
  }

  lemma StepCounted(c: Config, s: TaskState, e: Event, published: bool)
    requires Counted(s)
    ensures Counted(Handle(c, s, e, published).0)
  {
    TakenCounted(s, e);
  }

  /** The token count is always the estimate of the buffer, whatever failed. */
  lemma {:induction false} TokensAreTheEstimate(c: Config, inputs: seq<Input>, n: nat)
    requires n <= |inputs|
    ensures Counted(StateAfter(c, inputs, n))
  {
    if n == 0 {
    } else {
      TokensAreTheEstimate(c, inputs, n - 1);
      StepCounted(c, StateAfter(c, inputs, n - 1), inputs[n - 1].event, inputs[n - 1].published);
    }
  }

  predicate Below(c: Config, s: TaskState) { |s.buffer| < c.maxEvents && s.tokens < c.maxTokens }

  /** The last of a task's inputs among the first n raised nothing; there may be none. */
  predicate Unharmed(c: Config, inputs: seq<Input>, n: nat, task: TaskId)
    requires n <= |inputs|
  {
    var own := Own(inputs, n, task);
    own != [] ==> OutcomeAt(c, own, |own| - 1).Buffered? || OutcomeAt(c, own, |own| - 1).Cleared?
  }

  /** In every stream, every task whose last event raised nothing is below both thresholds. */
  ghost predicate StaysBelow(c: Config) {
    forall inputs, n: nat, task: TaskId :: n <= |inputs| && Unharmed(c, inputs, n, task) ==> Below(c, TaskAfter(c, inputs, n, task))
  }

  lemma HandledBelow(c: Config, s: TaskState, e: Event, published: bool)
    requires 1 <= c.maxEvents && 1 <= c.maxTokens
    requires Handle(c, s, e, published).1.Buffered? || Handle(c, s, e, published).1.Cleared?
    ensures Below(c, Handle(c, s, e, published).0)
  {}

  /** Buffers stay below their thresholds, failures aside, if and only if both thresholds are at least one. */
  lemma StaysBelowIff(c: Config)
    ensures StaysBelow(c) <==> 1 <= c.maxEvents && 1 <= c.maxTokens
  {
    if 1 <= c.maxEvents && 1 <= c.maxTokens {
      forall inputs, n: nat, task: TaskId | n <= |inputs| && Unharmed(c, inputs, n, task) ensures Below(c, TaskAfter(c, inputs, n, task)) {
        var own := Own(inputs, n, task);
        if own != [] {
          HandledBelow(c, StateAfter(c, own, |own| - 1), own[|own| - 1].event, own[|own| - 1].published);
        }
      }
    } else {
      assert Unharmed(c, [], 0, 0) && !Below(c, TaskAfter(c, [], 0, 0));
    }
  }

  ghost predicate CountsItsEvents(s: TaskState, s': TaskState, e: Event) {
    var events := s.buffer + [e];
    && |s'.summaries| == |s.summaries| + 1 && s'.summaries[..|s.summaries|] == s.summaries
    && var y := s'.summaries[|s.summaries|];
       && y.supersedes == Ids(events) && y.tokens == Estimate(events, |events|)
       && |y.decisions| <= 5 && |y.findings| <= 5 && |y.blockers| <= 3 && |y.actions| <= 3
  }

  lemma StepSummary(c: Config, s: TaskState, e: Event, published: bool)
    requires Counted(s) && (Handle(c, s, e, published).1.Cleared? || Handle(c, s, e, published).1.PublishFailed?)
    ensures CountsItsEvents(s, Handle(c, s, e, published).0, e)
  {
    TakenCounted(s, e);
  }

  /** A stored summary counts the tokens of the very events it supersedes. */
  lemma SummaryCountsItsEvents(c: Config, inputs: seq<Input>, n: nat)
    requires n < |inputs| && (OutcomeAt(c, inputs, n).Cleared? || OutcomeAt(c, inputs, n).PublishFailed?)
    ensures CountsItsEvents(StateAfter(c, inputs, n), StateAfter(c, inputs, n + 1), inputs[n].event)
  {
    TokensAreTheEstimate(c, inputs, n);
    StepSummary(c, StateAfter(c, inputs, n), inputs[n].event, inputs[n].published);
  }
}
