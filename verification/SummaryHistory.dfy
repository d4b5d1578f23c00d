/** Event summaries read off a task's inputs: when one is due, which events it is of, and what it says. */
module SummaryHistory {
  import opened Collections
  import opened EventSummaries

  // ---- what a summary says ----

  /** What kind of event each column is made of. */
  predicate Speaks(column: Column, e: Event) {
    match column
    case Decisions => e.kind.DecisionMade?
    case Blockers => e.kind.TaskFailed?
    case Findings => e.kind.OtherKind? && "finding" in e.payload
    case Actions => e.kind.OtherKind? && "finding" !in e.payload && "next_action" in e.payload
  }

  function Speaking(events: seq<Event>, column: Column): seq<Event> {
    Filter(events, (e: Event) => Speaks(column, e))
  }

  function KeyOf(column: Column): string {
    match column
    case Decisions => "decision"
    case Blockers => "error"
    case Findings => "finding"
    case Actions => "next_action"
  }

  /** What the event says in the column; an absent key says nothing, and a value that is no text cannot be read. */
  predicate Says(e: Event, column: Column, text: string) {
    if KeyOf(column) in e.payload then e.payload[KeyOf(column)] == Some(text) else text == ""
  }

  predicate Legible(e: Event, column: Column) { KeyOf(column) in e.payload ==> e.payload[KeyOf(column)].Some? }

  /** How many of n values a column keeps: five decisions and findings, three blockers and actions. */
  function Few(column: Column, n: nat): nat {
    var most := if column.Decisions? || column.Findings? then 5 else 3;
    if n < most then n else most
  }

  /** The column holds what the first few of its events say, in their order. */
  ghost predicate ColumnTells(values: seq<string>, events: seq<Event>, column: Column) {
    var speaking := Speaking(events, column);
    |values| == Few(column, |speaking|) && forall i :: 0 <= i < |values| ==> Says(speaking[i], column, values[i])
  }

  ghost predicate ColumnLegible(events: seq<Event>, column: Column) {
    var speaking := Speaking(events, column);
    forall i :: 0 <= i < Few(column, |speaking|) ==> Legible(speaking[i], column)
  }

  lemma SpeakingNext(events: seq<Event>, column: Column, n: nat)
    requires n < |events|
    ensures Speaking(events[..n + 1], column)
         == Speaking(events[..n], column) + if Speaks(column, events[n]) then [events[n]] else []
  {
    assert events[..n + 1] == events[..n] + [events[n]];
    FilterAppend(events[..n], [events[n]], (e: Event) => Speaks(column, e));
    assert [events[n]][1..] == [];
  }

  /** The values are what the events hold under the column's key. */
  ghost predicate Values(values: seq<Option<string>>, speaking: seq<Event>, column: Column) {
    |values| == |speaking| && forall i :: 0 <= i < |values| ==> values[i] == Lookup(speaking[i], KeyOf(column))
  }

  lemma ContributionSpeaks(e: Event, column: Column)
    ensures var c := Contribution(e);
            if Speaks(column, e) then c == Some((column, Lookup(e, KeyOf(column)))) else c.Some? ==> c.value.0 != column
  {}

  lemma {:induction false} CollectedSpeaks(events: seq<Event>, column: Column, n: nat)
    requires n <= |events|
    ensures Values(Collected(events, column, n), Speaking(events[..n], column), column)
  {
    if n == 0 {
      assert events[..0] == [];
    } else {
      CollectedSpeaks(events, column, n - 1);
      SpeakingNext(events, column, n - 1);
      ContributionSpeaks(events[n - 1], column);
    }
  }

  lemma KeptTells(events: seq<Event>, column: Column)
    ensures AllText(Kept(events, column)) <==> ColumnLegible(events, column)
    ensures AllText(Kept(events, column)) ==> ColumnTells(Texts(Kept(events, column)), events, column)
  {
    assert events[..|events|] == events;
    CollectedSpeaks(events, column, |events|);
    var kept, speaking := Kept(events, column), Speaking(events, column);
    assert |kept| == Few(column, |speaking|);
    assert forall i :: 0 <= i < |kept| ==> kept[i] == Lookup(speaking[i], KeyOf(column));
    assert forall i :: 0 <= i < |kept| ==> (kept[i].Some? <==> Legible(speaking[i], column));
  }

  /** The summary of these events. */
  ghost predicate SummaryTells(y: Summary, task: TaskId, events: seq<Event>) {
    && y.task == task
    && ColumnTells(y.decisions, events, Decisions) && ColumnTells(y.findings, events, Findings)
    && ColumnTells(y.blockers, events, Blockers) && ColumnTells(y.actions, events, Actions)
    && y.tokens == Estimate(events, |events|)
    && |y.supersedes| == |events| && forall i :: 0 <= i < |events| ==> y.supersedes[i] == events[i].id
  }

  ghost predicate AllLegible(events: seq<Event>) {
    && ColumnLegible(events, Decisions) && ColumnLegible(events, Findings)
    && ColumnLegible(events, Blockers) && ColumnLegible(events, Actions)
  }

  lemma SummarizedTells(task: TaskId, events: seq<Event>)
    ensures Readable(events) <==> AllLegible(events)
    ensures Readable(events) ==> SummaryTells(Summarized(task, events, Estimate(events, |events|)), task, events)
  {
    KeptTells(events, Decisions);
    KeptTells(events, Findings);
    KeptTells(events, Blockers);
    KeptTells(events, Actions);
  }

  // ---- when a summary is due ----

  /** The task's events since its last published summary. */
  function Since(c: Config, inputs: seq<Input>, n: nat): seq<Event>
    requires n <= |inputs|
  {
    if n == 0 || OutcomeAt(c, inputs, n - 1).Cleared? then [] else Since(c, inputs, n - 1) + [inputs[n - 1].event]
  }

  lemma {:induction false} BufferIsSince(c: Config, inputs: seq<Input>, n: nat)
    requires n <= |inputs|
    ensures StateAfter(c, inputs, n).buffer == Since(c, inputs, n)
  {
    if n == 0 {
      assert StateAfter(c, inputs, 0) == TaskState([], 0, []);
    } else {
      BufferIsSince(c, inputs, n - 1);
      StepBuffer(c, StateAfter(c, inputs, n - 1), inputs[n - 1].event, inputs[n - 1].published);
    }
  }

  lemma StepBuffer(c: Config, s: TaskState, e: Event, published: bool)
    ensures var (s', r) := Handle(c, s, e, published);
            && s'.buffer == (if r.Cleared? then [] else s.buffer + [e])
            && (if r.Cleared? || r.PublishFailed? then |s'.summaries| == |s.summaries| + 1 && s.summaries <= s'.summaries
                else s'.summaries == s.summaries)
  {}

  /** By number of events or by estimated tokens. */
  predicate Due(c: Config, events: seq<Event>) { |events| >= c.maxEvents || Estimate(events, |events|) >= c.maxTokens }

  lemma HandleTells(c: Config, s: TaskState, e: Event, published: bool)
    requires Counted(s)
    ensures var (events, s', r) := (s.buffer + [e], Handle(c, s, e, published).0, Handle(c, s, e, published).1);
            && r == (if !Due(c, events) then Buffered
                     else if !AllLegible(events) then Unreadable
                     else if published then Cleared else PublishFailed)
            && (r.Cleared? || r.PublishFailed? ==> s'.summaries != [] && SummaryTells(s'.summaries[|s'.summaries| - 1], e.task, events))
  {
    TakenCounted(s, e);
    SummarizedTells(e.task, s.buffer + [e]);
  }

  /** A task's event is summarised, with those since the last published summary, exactly when these have
      reached a threshold, and are legible; the summary says what they say, and nothing else is stored. */
  lemma SummariesTell(c: Config, inputs: seq<Input>, n: nat)
    requires n < |inputs|
    ensures var (events, r) := (Since(c, inputs, n) + [inputs[n].event], OutcomeAt(c, inputs, n));
            var (before, after) := (StateAfter(c, inputs, n).summaries, StateAfter(c, inputs, n + 1).summaries);
            && r == (if !Due(c, events) then Buffered
                     else if !AllLegible(events) then Unreadable
                     else if inputs[n].published then Cleared else PublishFailed)
            && (if r.Cleared? || r.PublishFailed?
                then |after| == |before| + 1 && before <= after && SummaryTells(after[|before|], inputs[n].event.task, events)
                else after == before)
  {
    BufferIsSince(c, inputs, n);
    TokensAreTheEstimate(c, inputs, n);
    HandleTells(c, StateAfter(c, inputs, n), inputs[n].event, inputs[n].published);
    StepBuffer(c, StateAfter(c, inputs, n), inputs[n].event, inputs[n].published);
  }
}
