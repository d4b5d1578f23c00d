/** What calls on core memory do, said of the texts and the log of a run alone. */
module CoreMemoryHistory {
  import opened Collections
  import opened Strings
  import opened CoreMemory
  import opened CoreMemoryRuns

  // ---- what a call makes of a block ----

  ghost predicate FirstAt(s: string, x: string, i: nat) {
    OccursAt(s, x, i) && forall j: nat :: j < i ==> !OccursAt(s, x, j)
  }

  ghost predicate ReplacedAt(before: string, oldText: string, newText: string, i: nat, after: string) {
    FirstAt(before, oldText, i) && after == before[..i] + newText + before[i + |oldText|..]
  }

  /** after is before with the first occurrence of a text exchanged for another. */
  ghost predicate Exchanges(before: string, oldText: string, newText: string, after: string) {
    exists i: nat :: ReplacedAt(before, oldText, newText, i, after)
  }

  /** An append joins its text to a block that holds something, and then cuts whitespace off the ends; a
      replacement exchanges the first occurrence. None stands for a missing block. */
  ghost predicate Does(call: Call, before: Option<string>, after: string) {
    match call
    case Update(_, content, _, _) => after == content
    case Append(_, added, separator) =>
      Trims(if before.None? || before.value == "" then added else before.value + separator + added, after)
    case Replace(_, oldText, newText, _) => before.Some? && Exchanges(before.value, oldText, newText, after)
  }

  lemma {:induction false} FirstOf(s: string, x: string, i: nat) returns (first: nat)
    requires OccursAt(s, x, i)
    ensures FirstAt(s, x, first)
  {
    first := i;
    if j: nat :| j < i && OccursAt(s, x, j) {
      first := FirstOf(s, x, j);
    }
  }

  lemma ReplacementIsAt(before: string, oldText: string, newText: string, after: string) returns (i: nat)
    requires ReplaceFirst(before, oldText, newText) == Some(after)
    ensures ReplacedAt(before, oldText, newText, i, after)
  {
    ReplacesIffOccurs(before, oldText, newText);
    var some: nat :| OccursAt(before, oldText, some);
    i := FirstOf(before, oldText, some);
    ReplacesFirstOccurrence(before, oldText, newText, i);
  }

  lemma ReplaceExchanges(before: string, oldText: string, newText: string, after: string)
    ensures ReplaceFirst(before, oldText, newText) == Some(after) <==> Exchanges(before, oldText, newText, after)
  {
    if ReplaceFirst(before, oldText, newText) == Some(after) {
      var _ := ReplacementIsAt(before, oldText, newText, after);
    } else if Exchanges(before, oldText, newText, after) {
      var i: nat :| ReplacedAt(before, oldText, newText, i, after);
      ReplacesFirstOccurrence(before, oldText, newText, i);
    }
  }

  lemma MeaningIsDoing(call: Call, before: Option<string>, after: string)
    ensures Meaning(call, before) == Some(after) <==> Does(call, before, after)
  {
    if call.Append? {
      StripTrims(if before.None? || before.value == "" then call.added else before.value + call.separator + call.added, after);
    } else if call.Replace? && before.Some? {
      ReplaceExchanges(before.value, call.oldText, call.newText, after);
    }
  }

  // ---- runs: every entry of the log does what its call says to what the log says stood there ----

  /** What an entry leaves of its key. */
  function Left(e: Entered): Option<string> {
    match e
    case Wrote(_, _, content, _) => Some(content)
    case Purged(_, _) => None
    case Seeded(_, content, _) => Some(content)
  }

  /** What the first n entries leave of a key: what the last one on it does. */
  function Latest(initial: Option<string>, log: seq<Entered>, key: Key, n: nat): Option<string>
    requires n <= |log|
  {
    if n == 0 then initial
    else if KeyOf(log[n - 1]) == key then Left(log[n - 1])
    else Latest(initial, log, key, n - 1)
  }

  lemma {:induction false} LatestPrefix(initial: Option<string>, log: seq<Entered>, more: seq<Entered>, key: Key, n: nat)
    requires n <= |log|
    ensures Latest(initial, log + more, key, n) == Latest(initial, log, key, n)
  {
    if n == 0 {
    } else {
      LatestPrefix(initial, log, more, key, n - 1);
    }
  }

  /** The entry takes the bucket from s to t: a call writes what it makes of what stands there, a bootstrap where
      nothing stands. */
  ghost predicate Enters(s: Store, entry: Entered, t: Store) {
    match entry
    case Wrote(_, call, content, _) => t == Put(s, call.key, content) && Does(call, ContentOf(s, call.key), content)
    case Purged(key, _) => t == Purge(s, key)
    case Seeded(key, content, _) => t == Put(s, key, content) && key !in s.entries
  }

  /** At most one entry is added to the log, and that takes the bucket from one world to the next. */
  ghost predicate StepsTo(w: World, w': World) {
    if w'.log == w.log then w'.store == w.store
    else w'.log != [] && w.log == w'.log[..|w'.log| - 1] && Enters(w.store, w'.log[|w'.log| - 1], w'.store)
  }

  lemma EventSteps(text: Text, w: World, e: Event)
    requires e.Turn? && e.id in w.clients ==> Sane(w, e.id, w.clients[e.id].call.key)
    ensures StepsTo(w, Next(text, w, e))
  {
    if e.Turn? && e.id in w.clients {
      var r, w' := w.clients[e.id], Next(text, w, e);
      ActComputes(text, r, w.store);
      if r.client.Writing? {
        MeaningIsDoing(r.call, ContentOf(w.store, r.call.key), r.client.content);
      }
      assert w'.log != w.log ==> w'.log[..|w.log|] == w.log;
    }
  }

  lemma RunSteps(text: Text, w0: World, events: seq<Event>, n: nat)
    requires Initial(w0) && n < |events|
    ensures StepsTo(WorldAt(text, w0, events, n), WorldAt(text, w0, events, n + 1))
  {
    var w, e := WorldAt(text, w0, events, n), events[n];
    if e.Turn? && e.id in w.clients {
      ClientsComputed(text, w0, events, n, e.id, w.clients[e.id].call.key);
    }
    EventSteps(text, w, e);
  }

  lemma LatestOfMore(initial: Option<string>, log: seq<Entered>, e: Entered, key: Key)
    ensures Latest(initial, log + [e], key, |log| + 1) == if KeyOf(e) == key then Left(e) else Latest(initial, log, key, |log|)
  {
    LatestPrefix(initial, log, [e], key, |log|);
  }

  lemma EnteredContent(s: Store, e: Entered, t: Store, key: Key)
    requires Enters(s, e, t)
    ensures ContentOf(t, key) == if KeyOf(e) == key then Left(e) else ContentOf(s, key)
  {}

  lemma LatestStep(initial: Option<string>, w: World, w': World, key: Key)
    requires StepsTo(w, w') && ContentOf(w.store, key) == Latest(initial, w.log, key, |w.log|)
    ensures ContentOf(w'.store, key) == Latest(initial, w'.log, key, |w'.log|)
  {
    if w'.log != w.log {
      var entry := w'.log[|w.log|];
      assert w'.log == w.log + [entry];
      LatestOfMore(initial, w.log, entry, key);
      EnteredContent(w.store, entry, w'.store, key);
    }
  }

  lemma {:induction false} BlocksAreLatest(text: Text, w0: World, events: seq<Event>, n: nat, key: Key)
    requires Initial(w0) && n <= |events|
    ensures var w := WorldAt(text, w0, events, n);
            ContentOf(w.store, key) == Latest(ContentOf(w0.store, key), w.log, key, |w.log|)
  {
    if n == 0 {
      assert WorldAt(text, w0, events, 0) == w0;
    } else {
      BlocksAreLatest(text, w0, events, n - 1, key);
      RunSteps(text, w0, events, n - 1);
      LatestStep(ContentOf(w0.store, key), WorldAt(text, w0, events, n - 1), WorldAt(text, w0, events, n), key);
    }
  }

  /** What the entries before i leave of the key of entry i. */
  function Before(initial: Store, log: seq<Entered>, i: nat): Option<string>
    requires i < |log|
  {
    Latest(ContentOf(initial, KeyOf(log[i])), log, KeyOf(log[i]), i)
  }

  /** Entry i of the log stored what its call makes of what the entries before it left; a bootstrap's came where
      they had left nothing. */
  ghost predicate EntryDoes(initial: Store, log: seq<Entered>, i: nat)
    requires i < |log|
  {
    match log[i]
    case Wrote(_, call, content, _) => Does(call, Before(initial, log, i), content)
    case Purged(_, _) => true
    case Seeded(_, _, _) => Before(initial, log, i) == None
  }

  ghost predicate AllDo(initial: Store, log: seq<Entered>) { forall i :: 0 <= i < |log| ==> EntryDoes(initial, log, i) }

  lemma LogStep(initial: Store, w: World, w': World, e: Entered)
    requires StepsTo(w, w') && w'.log == w.log + [e] && AllDo(initial, w.log)
    requires ContentOf(w.store, KeyOf(e)) == Latest(ContentOf(initial, KeyOf(e)), w.log, KeyOf(e), |w.log|)
    ensures AllDo(initial, w'.log)
  {
    forall i | 0 <= i < |w'.log| ensures EntryDoes(initial, w'.log, i) {
      var key := KeyOf(w'.log[i]);
      LatestPrefix(ContentOf(initial, key), w.log, [e], key, i);
      if i < |w.log| {
        assert EntryDoes(initial, w.log, i);
      } else {
        assert w'.log[i] == e;
      }
    }
  }

  /** No append or replacement is lost or misses what came before it: each works on exactly what the last
      entry before it left, whatever ran in between. And no bootstrap overwrites a block. */
  lemma {:induction false} EntriesDo(text: Text, w0: World, events: seq<Event>, n: nat)
    requires Initial(w0) && n <= |events|
    ensures AllDo(w0.store, WorldAt(text, w0, events, n).log)
  {
    if n == 0 {
      assert WorldAt(text, w0, events, 0) == w0;
    } else {
      var m := n - 1;
      EntriesDo(text, w0, events, m);
      RunSteps(text, w0, events, m);
      EntriesStep(text, w0, events, m);
    }
  }

  lemma EntriesStep(text: Text, w0: World, events: seq<Event>, m: nat)
    requires Initial(w0) && m < |events| && AllDo(w0.store, WorldAt(text, w0, events, m).log)
    requires StepsTo(WorldAt(text, w0, events, m), WorldAt(text, w0, events, m + 1))
    ensures AllDo(w0.store, WorldAt(text, w0, events, m + 1).log)
  {
    var w, w' := WorldAt(text, w0, events, m), WorldAt(text, w0, events, m + 1);
    if w'.log != w.log {
      var e := w'.log[|w'.log| - 1];
      BlocksAreLatest(text, w0, events, m, KeyOf(e));
      LogStep(w0.store, w, w', e);
    }
  }

  // ---- runs of appends ----

  /** The entry is an append of a text that has no whitespace at its ends. */
  predicate PlainAppend(e: Entered) {
    e.Wrote? && e.call.Append? && e.call.added != "" && Trimmed(e.call.added)
  }

  /** The texts appended to the key, in log order, each after the first with its separator before it. */
  function Joined(log: seq<Entered>, key: Key, n: nat): string
    requires n <= |log|
  {
    if n == 0 then ""
    else
      var e, before := log[n - 1], Joined(log, key, n - 1);
      if KeyOf(e) != key || !PlainAppend(e) then before
      else if before == "" then e.call.added
      else before + e.call.separator + e.call.added
  }

  lemma TrimmedStays(s: string, m: string)
    requires Trims(s, m) && Trimmed(s)
    ensures m == s
  {
    assert s == [] + s + [];
    assert Between(s, [], s, []);
    StripTrims(s, s);
    StripTrims(s, m);
  }

  lemma AppendJoins(call: Call, before: Option<string>, after: string)
    requires call.Append? && call.added != "" && Trimmed(call.added) && Does(call, before, after)
    requires before.Some? ==> before.value != "" && Trimmed(before.value)
    ensures after == if before.None? then call.added else before.value + call.separator + call.added
  {
    TrimmedStays(if before.None? then call.added else before.value + call.separator + call.added, after);
  }

  lemma {:induction false} LatestIsJoined(initial: Store, log: seq<Entered>, key: Key, n: nat)
    requires n <= |log| && key !in initial.entries
    requires forall i :: 0 <= i < n && KeyOf(log[i]) == key ==> PlainAppend(log[i]) && EntryDoes(initial, log, i)
    ensures Trimmed(Joined(log, key, n))
    ensures Latest(None, log, key, n) == if Joined(log, key, n) == "" then None else Some(Joined(log, key, n))
  {
    if n == 0 {
    } else {
      LatestIsJoined(initial, log, key, n - 1);
      if KeyOf(log[n - 1]) == key {
        AppendJoins(log[n - 1].call, Latest(None, log, key, n - 1), log[n - 1].content);
      }
    }
  }

  /** A block that was missing and has only been appended to holds the appended texts, all of them, in
      revision order, joined by their separators. */
  lemma AppendsJoin(text: Text, w0: World, events: seq<Event>, n: nat, key: Key)
    requires Initial(w0) && n <= |events| && key !in w0.store.entries
    requires var log := WorldAt(text, w0, events, n).log;
             forall i :: 0 <= i < |log| && KeyOf(log[i]) == key ==> PlainAppend(log[i])
    ensures var w := WorldAt(text, w0, events, n);
            var all := Joined(w.log, key, |w.log|);
            ContentOf(w.store, key) == if all == "" then None else Some(all)
  {
    var w := WorldAt(text, w0, events, n);
    BlocksAreLatest(text, w0, events, n, key);
    EntriesDo(text, w0, events, n);
    LatestIsJoined(w0.store, w.log, key, |w.log|);
  }

  // ---- answers ----

  /** What a call answered is what the log says it wrote, with its token count. */
  ghost predicate AnswerLogged(text: Text, w: World, id: Id)
    requires HasWritten(w, id)
  {
    var r := w.clients[id];
    && r.client.result.tokens == text.Tokens(r.client.result.content)
    && Wrote(id, r.call, r.client.result.content, r.client.result.revision) in w.log
  }

  lemma EventKeepsAnswer(text: Text, w: World, e: Event, id: Id)
    requires HasWritten(w, id) ==> AnswerLogged(text, w, id)
    requires e.Turn? && e.id in w.clients ==> Sane(w, e.id, w.clients[e.id].call.key)
    ensures HasWritten(Next(text, w, e), id) ==> AnswerLogged(text, Next(text, w, e), id)
  {
    var w' := Next(text, w, e);
    if HasWritten(w', id) && !HasWritten(w, id) {
      ActComputes(text, w.clients[id], w.store);
      assert w'.log[|w.log|] in w'.log;
    }
  }

  lemma {:induction false} AnswersAreLogged(text: Text, w0: World, events: seq<Event>, n: nat, id: Id)
    requires Initial(w0) && n <= |events|
    ensures var w := WorldAt(text, w0, events, n); HasWritten(w, id) ==> AnswerLogged(text, w, id)
  {
    if n == 0 {
      assert WorldAt(text, w0, events, 0) == w0;
    } else {
      var w, e := WorldAt(text, w0, events, n - 1), events[n - 1];
      AnswersAreLogged(text, w0, events, n - 1, id);
      if e.Turn? && e.id in w.clients {
        ClientsComputed(text, w0, events, n - 1, e.id, w.clients[e.id].call.key);
      }
      EventKeepsAnswer(text, w, e, id);
    }
  }

  // ---- who may write what, and how much ----

  /** An agent may write its working context only, a worker the primed cache and the user profile; an append
      is not asked who makes it. */
  predicate Barred(call: Call) {
    && !call.Append?
    && ((call.caller.Agent? && call.key.block != WorkingContext)
        || (call.caller.Worker? && call.key.block != PrimedCache && call.key.block != UserProfile))
  }

  predicate Fits(text: Text, content: string, block: Block) {
    match block
    case System => text.Tokens(content) <= 1_500
    case Persona => text.Tokens(content) <= 1_000
    case UserProfile => text.Tokens(content) <= 2_000
    case WorkingContext => text.Tokens(content) <= 4_000
    case PrimedCache => text.Tokens(content) <= 2_000
  }

  /** A call is denied exactly when its caller is barred, an unsafe update being refused before that is
      looked at; an update is refused exactly when it is unsafe or, let through so far, too large. */
  lemma {:induction false} RefusedIff(text: Text, w0: World, events: seq<Event>, n: nat, id: Id)
    requires Initial(w0) && n <= |events| && id in WorldAt(text, w0, events, n).clients
    ensures var r := WorldAt(text, w0, events, n).clients[id];
            && (r.client == Done(Denied) <==> Barred(r.call) && (r.call.Update? ==> text.IsSafe(r.call.content)))
            && (r.call.Update? ==> (r.client == Done(Invalid) <==>
                  !text.IsSafe(r.call.content) || (!Barred(r.call) && !Fits(text, r.call.content, r.call.key.block))))
  {
    assert n != 0;
    if id in WorldAt(text, w0, events, n - 1).clients {
      RefusedIff(text, w0, events, n - 1, id);
    }
  }

  /** Reading the block, an append or replacement is refused exactly when it makes nothing of it that fits;
      otherwise it goes on to write what it made, on the revision it read. */
  lemma InvalidIff(text: Text, call: Call, attempt: nat, s: Store, after: string)
    requires !call.Update?
    ensures var c := Act(text, call, Reading(attempt), s).0;
            && Act(text, call, Reading(attempt), s).1 == s
            && (c == Done(Invalid) || c.Writing?)
            && (Does(call, ContentOf(s, call.key), after) && Fits(text, after, call.key.block) <==>
                c == Writing(attempt, after, if call.key in s.entries then s.entries[call.key].revision else 0))
  {
    MeaningIsDoing(call, ContentOf(s, call.key), after);
  }
}
