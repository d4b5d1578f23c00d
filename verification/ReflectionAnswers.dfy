/** Over every run of the review queue: what an action answers is what the tables then hold. */
module ReflectionAnswers {
  import opened Collections
  import opened ReflectionReview

  function AnswerAt(states: seq<Tables>, events: seq<Event>, i: nat): Response
    requires i < |events| && i < |states| && events[i].Take?
  {
    Act(states[i], events[i].tenant, events[i].pid, events[i].action, events[i].now).1
  }

  predicate Known(t: Tables, tenant: string, pid: ProposalId) { pid in t.proposals && t.proposals[pid].tenant == tenant }

  /** A reviewer may inspect whatever is there, approve and deny what is pending, and edit, with a text, what is
      pending or accepted. */
  predicate Allowed(s: Status, a: Action) {
    match a.decision
    case Inspect => true
    case Deny | Approve => s.Pending?
    case Edit => a.edited != "" && s in {Pending, Accepted, AcceptedByTimeout}
    case TimeoutAccept => false
  }

  /** No action of a reviewer's, or an edit without a text. */
  predicate Malformed(a: Action) { a.decision.TimeoutAccept? || (a.decision.Edit? && a.edited == "") }

  /** The status that an action leaves a proposal in. */
  function StatusAfter(before: Status, decision: Decision): Status {
    match decision
    case Deny => Rejected
    case Approve => Accepted
    case Edit => if before.Pending? then Accepted else Superseded
    case _ => before
  }

  /** The proposal has the status answered, its pointer is the answered memory if this call accepted it, a late
      edit makes it its own successor, and every other proposal is as before. */
  ghost predicate ProposalTold(t: Tables, t': Tables, pid: ProposalId, a: Action, r: Response)
    requires r.Done? && pid in t.proposals
  {
    var p := t.proposals[pid];
    && t'.proposals.Keys == t.proposals.Keys
    && (forall q :: q in t.proposals && q != pid ==> t'.proposals[q] == t.proposals[q])
    && r.decision == a.decision && r.status == StatusAfter(p.status, a.decision)
    && var p' := t'.proposals[pid];
       && p'.status == r.status && p'.tenant == p.tenant && p'.content == p.content && p'.expiresAt == p.expiresAt
       && p'.memory == (if p.status.Pending? && r.status.Accepted? then r.memory else p.memory)
       && p'.supersededBy == if a.decision.Edit? && !p.status.Pending? then Some(pid) else p.supersededBy
  }

  /** An approval or edit wrote the answered memory, and nothing else is written; the answered superseded
      memory, of a late edit only, was the valid one, ends now and points to the new one; every other memory
      is as before. */
  ghost predicate MemoryTold(t: Tables, t': Tables, pid: ProposalId, a: Action, r: Response, now: int)
    requires r.Done? && pid in t.proposals
  {
    var p, id := t.proposals[pid], |t.memories|;
    && (a.decision.Approve? || a.decision.Edit? ==>
          && r.memory == Some(id) && |t'.memories| == id + 1
          && t'.memories[id] == Memory(pid, p.tenant, if a.decision.Approve? then p.content else a.edited, Accepted, None, None))
    && (a.decision.Deny? || a.decision.Inspect? ==>
          && |t'.memories| == id
          && r.memory == if a.decision.Inspect? then p.memory else None)
    && (r.supersedes.Some? <==> a.decision.Edit? && !p.status.Pending?)
    && (r.supersedes.Some? ==>
          && p.memory == r.supersedes && ValidNow(t, r.supersedes.value)
          && t'.memories[r.supersedes.value].validTo == Some(now) && t'.memories[r.supersedes.value].invalidatedBy == r.memory)
    && id <= |t'.memories| && forall m :: 0 <= m < id && Some(m) != r.supersedes ==> t'.memories[m] == t.memories[m]
  }

  lemma ActTells(t: Tables, tenant: string, pid: ProposalId, a: Action, now: int)
    requires Settled(t, pid)
    ensures var (t', r) := Act(t, tenant, pid, a, now);
            && (r.Done? <==> Known(t, tenant, pid) && Allowed(t.proposals[pid].status, a))
            && (r.Done? ==> ProposalTold(t, t', pid, a, r) && MemoryTold(t, t', pid, a, r, now))
  {
    if pid in t.proposals && t.proposals[pid].memory.Some? {
      MemoriesOfAgree(t.memories, t.memories, pid, |t.memories|);
      var ids := MemoriesOf(t.memories, pid, |t.memories|);
      assert ids[0] in ids;
    }
  }

  /** The answer tells the tables. An action is done exactly when the tenant has the proposal and its status
      allows the action; otherwise the answer says which of these fails, and nothing changes. */
  lemma AnswersTell(states: seq<Tables>, events: seq<Event>, i: nat)
    requires IsRun(states, events) && i < |events| && events[i].Take?
    ensures var (t, t', e, r) := (states[i], states[i + 1], events[i], AnswerAt(states, events, i));
            && (r == NotFound <==> !Known(t, e.tenant, e.pid))
            && (r == Unprocessable <==> Known(t, e.tenant, e.pid) && Malformed(e.action))
            && (r.Done? <==> Known(t, e.tenant, e.pid) && Allowed(t.proposals[e.pid].status, e.action))
            && (if r.Done? then ProposalTold(t, t', e.pid, e.action, r) && MemoryTold(t, t', e.pid, e.action, r, e.now)
                else t' == t)
  {
    var e := events[i];
    RunsSettle(states, events, i, e.pid);
    assert Possible(states[i], e) && states[i + 1] == Next(states[i], e);
    ActTells(states[i], e.tenant, e.pid, e.action, e.now);
  }

  // ---- a denial stands ----

  lemma {:induction false} RejectedStays(states: seq<Tables>, events: seq<Event>, i: nat, j: nat, pid: ProposalId)
    requires IsRun(states, events) && i <= j < |states| && pid in states[i].proposals && states[i].proposals[pid].status.Rejected?
    ensures pid in states[j].proposals && states[j].proposals[pid].status.Rejected?
  {
    if i == j {
    } else {
      RejectedStays(states, events, i, j - 1, pid);
      StatusMovesForward(states, events, j - 1, pid);
    }
  }

  /** A proposal once denied stays rejected, never gets a memory, and is in no later sweep's answer. */
  lemma DenialStands(states: seq<Tables>, events: seq<Event>, i: nat, j: nat)
    requires IsRun(states, events) && i < j < |states| && events[i].Take?
    requires AnswerAt(states, events, i).Done? && AnswerAt(states, events, i).decision.Deny?
    ensures var (t, pid) := (states[j], events[i].pid);
            && pid in t.proposals && t.proposals[pid].status.Rejected? && t.proposals[pid].memory.None?
            && (forall m :: 0 <= m < |t.memories| ==> t.memories[m].proposal != pid)
            && (j < |events| && events[j].Sweep? ==> pid !in events[j].expired)
  {
    var t, pid := states[j], events[i].pid;
    AnswersTell(states, events, i);
    RejectedStays(states, events, i + 1, j, pid);
    RunsSettle(states, events, j, pid);
    NoMemories(t.memories, pid, |t.memories|);
    if j < |events| && events[j].Sweep? {
      assert Possible(t, events[j]);
      assert !Expired(t, events[j].tenant, pid, events[j].now);
    }
  }

  lemma {:induction false} NoMemories(memories: seq<Memory>, pid: ProposalId, n: nat)
    requires n <= |memories| && MemoriesOf(memories, pid, n) == []
    ensures forall m :: 0 <= m < n ==> memories[m].proposal != pid
  {
    if n == 0 {
    } else {
      NoMemories(memories, pid, n - 1);
    }
  }

  // ---- sweeps ----

  /** The tenant's, pending, and its time is up. */
  predicate Due(p: Proposal, tenant: string, now: int) { p.tenant == tenant && p.status.Pending? && p.expiresAt <= now }

  /** The k-th listed proposal is accepted by timeout, and points to the memory that says what it proposed. */
  ghost predicate TimedOut(t: Tables, t': Tables, expired: seq<ProposalId>, k: nat)
    requires k < |expired| && expired[k] in t.proposals
  {
    var (pid, id) := (expired[k], |t.memories| + k);
    var p := t.proposals[pid];
    && pid in t'.proposals && id < |t'.memories|
    && t'.proposals[pid] == p.(status := AcceptedByTimeout, memory := Some(id))
    && t'.memories[id] == Memory(pid, p.tenant, p.content, AcceptedByTimeout, None, None)
  }

  /** The first n listed proposals are accepted by timeout, and nothing else has changed. */
  ghost predicate Swept(t: Tables, t': Tables, expired: seq<ProposalId>, n: nat)
    requires n <= |expired| && forall i :: 0 <= i < |expired| ==> expired[i] in t.proposals
  {
    && |t'.memories| == |t.memories| + n && t'.memories[..|t.memories|] == t.memories
    && t'.proposals.Keys == t.proposals.Keys
    && (forall k :: 0 <= k < n ==> TimedOut(t, t', expired, k))
    && (forall q :: q in t.proposals && q !in expired[..n] ==> t'.proposals[q] == t.proposals[q])
  }

  lemma TimeoutOneTells(t: Tables, pid: ProposalId, now: int)
    requires pid in t.proposals
    ensures var p, t' := t.proposals[pid], TimeoutOne(t, pid, now);
            && t'.proposals == t.proposals[pid := p.(status := AcceptedByTimeout, memory := Some(|t.memories|))]
            && t'.memories == t.memories + [Memory(pid, p.tenant, p.content, AcceptedByTimeout, None, None)]
  {}

  lemma SweepNext(t: Tables, before: Tables, t': Tables, expired: seq<ProposalId>, now: int, n: nat)
    requires n < |expired| && Distinct(expired) && forall i :: 0 <= i < |expired| ==> expired[i] in t.proposals
    requires Swept(t, before, expired, n) && t' == TimeoutOne(before, expired[n], now)
    ensures Swept(t, t', expired, n + 1)
  {
    var pid := expired[n];
    TimeoutOneTells(before, pid, now);
    assert expired[..n + 1] == expired[..n] + [pid] && pid !in expired[..n];
    forall k | 0 <= k < n + 1 ensures TimedOut(t, t', expired, k) {
      if k < n {
        assert TimedOut(t, before, expired, k) && expired[k] != pid;
      }
    }
  }

  lemma {:induction false} SweepState(t: Tables, expired: seq<ProposalId>, now: int, n: nat)
    requires n <= |expired| && Distinct(expired) && forall i :: 0 <= i < |expired| ==> expired[i] in t.proposals
    ensures Swept(t, TimeoutMany(t, expired, now, n), expired, n)
  {
    if n == 0 {
      assert TimeoutMany(t, expired, now, 0) == t && t.memories[..|t.memories|] == t.memories;
    } else {
      var m := n - 1;
      SweepState(t, expired, now, m);
      SweepNext(t, TimeoutMany(t, expired, now, m), TimeoutMany(t, expired, now, n), expired, now, m);
    }
  }

  /** A sweep accepts by timeout the tenant's pending proposals whose time is up, each with a memory of its own
      that says what it proposed; it changes no other proposal and no memory, and leaves none overdue. */
  lemma SweepsTell(states: seq<Tables>, events: seq<Event>, i: nat)
    requires IsRun(states, events) && i < |events| && events[i].Sweep?
    ensures var (t, t', e) := (states[i], states[i + 1], events[i]);
            && (forall q :: q in t.proposals ==> (q in e.expired <==> Due(t.proposals[q], e.tenant, e.now)))
            && (forall k :: 0 <= k < |e.expired| ==> e.expired[k] in t.proposals && TimedOut(t, t', e.expired, k))
            && (forall q :: q in t.proposals && q !in e.expired ==> q in t'.proposals && t'.proposals[q] == t.proposals[q])
            && |t'.memories| == |t.memories| + |e.expired| && t'.memories[..|t.memories|] == t.memories
            && (forall q :: q in t'.proposals ==> !Due(t'.proposals[q], e.tenant, e.now))
  {
    var t, t', e := states[i], states[i + 1], events[i];
    assert Possible(t, e) && t' == Next(t, e);
    SweepCovers(t, e.tenant, e.now, e.expired);
    SweepState(t, e.expired, e.now, |e.expired|);
    assert e.expired[..|e.expired|] == e.expired;
    forall q | q in t'.proposals ensures !Due(t'.proposals[q], e.tenant, e.now) {
      assert q in t.proposals;
      if q in e.expired {
        var k :| 0 <= k < |e.expired| && e.expired[k] == q;
        assert TimedOut(t, t', e.expired, k);
      }
    }
  }
}
