/** The review queue of reflection proposals: approve, deny, edit, inspect and the timeout sweep, over
    three tables. One endpoint call is one step. */
module ReflectionReview {
  import opened Collections

  type ProposalId = nat
  type MemoryId = nat

  datatype Status = Pending | Accepted | AcceptedByTimeout | Rejected | Superseded

  datatype Proposal = Proposal(tenant: string, status: Status, content: string, expiresAt: int, memory: Option<MemoryId>,
                               supersededBy: Option<ProposalId>)

  datatype Memory = Memory(proposal: ProposalId, tenant: string, content: string, reviewStatus: Status,
                           validTo: Option<int>, invalidatedBy: Option<MemoryId>)

  datatype Decision = Approve | Deny | Edit | Inspect | TimeoutAccept

  datatype Audit = Audit(proposal: ProposalId, actor: string, decision: Decision, at: int)

  /** Memories and audit rows in the order they were inserted; a memory's id is its position. */
  datatype Tables = Tables(proposals: map<ProposalId, Proposal>, memories: seq<Memory>, audit: seq<Audit>)

  datatype Response = Done(decision: Decision, status: Status, memory: Option<MemoryId>, supersedes: Option<MemoryId>)
                    | NotFound | Conflict | Unprocessable

  /** Insert the memory of an accepted proposal, and end the validity of the one it supersedes. */
  function MemoryWritten(t: Tables, pid: ProposalId, content: string, review: Status, supersedes: Option<MemoryId>, now: int): Tables
    requires pid in t.proposals
  {
    var id := |t.memories|;
    var memories := t.memories + [Memory(pid, t.proposals[pid].tenant, content, review, None, None)];
    t.(memories :=
      if supersedes.Some? && supersedes.value < |t.memories|
         && (var v := t.memories[supersedes.value].validTo; v.None? || v.value > now) then
        var old_ := t.memories[supersedes.value];
        memories[supersedes.value :=
          old_.(validTo := if old_.validTo.None? then Some(now) else old_.validTo, invalidatedBy := Some(id))]
      else memories)
  }

  function Audited(t: Tables, a: Audit): Tables { t.(audit := t.audit + [a]) }

  function WithProposal(t: Tables, pid: ProposalId, p: Proposal): Tables { t.(proposals := t.proposals[pid := p]) }

  datatype Action = Action(decision: Decision, actor: string, edited: string)

  /** take_reflection_action. TimeoutAccept is no reviewer's decision, and gets the closing 422. */
  function Act(t: Tables, tenant: string, pid: ProposalId, a: Action, now: int): (Tables, Response) {
    if pid !in t.proposals || t.proposals[pid].tenant != tenant then (t, NotFound)
    else
      var p := t.proposals[pid];
      var log := Audit(pid, a.actor, a.decision, now);
      var id := |t.memories|;
      match a.decision
      case Inspect => (Audited(t, log), Done(Inspect, p.status, p.memory, None))
      case Deny =>
        if !p.status.Pending? then (t, Conflict)
        else (Audited(WithProposal(t, pid, p.(status := Rejected)), log), Done(Deny, Rejected, None, None))
      case Approve =>
        if !p.status.Pending? then (t, Conflict)
        else
          var t1 := MemoryWritten(t, pid, p.content, Accepted, None, now);
          (Audited(WithProposal(t1, pid, p.(status := Accepted, memory := Some(id))), log),
           Done(Approve, Accepted, Some(id), None))
      case Edit =>
        if a.edited == "" then (t, Unprocessable)
        else if p.status.Pending? then
          var t1 := MemoryWritten(t, pid, a.edited, Accepted, None, now);
          (Audited(WithProposal(t1, pid, p.(status := Accepted, memory := Some(id))), log),
           Done(Edit, Accepted, Some(id), None))
        else if p.status.Accepted? || p.status.AcceptedByTimeout? then
          var t1 := MemoryWritten(t, pid, a.edited, Accepted, p.memory, now);
          (Audited(WithProposal(t1, pid, p.(status := Superseded, supersededBy := Some(pid))), log),
           Done(Edit, Superseded, Some(id), p.memory))
        else (t, Conflict)
      case TimeoutAccept => (t, Unprocessable)
  }

  predicate Expired(t: Tables, tenant: string, pid: ProposalId, now: int) {
    pid in t.proposals && t.proposals[pid].tenant == tenant && t.proposals[pid].status.Pending? && t.proposals[pid].expiresAt <= now
  }

  /** The sweep's work on one expired proposal. */
  function TimeoutOne(t: Tables, pid: ProposalId, now: int): Tables
    requires pid in t.proposals
  {
    var p := t.proposals[pid];
    var t1 := MemoryWritten(t, pid, p.content, AcceptedByTimeout, None, now);
    Audited(WithProposal(t1, pid, p.(status := AcceptedByTimeout, memory := Some(|t.memories|))),
            Audit(pid, "system", TimeoutAccept, now))
  }

  function TimeoutMany(t: Tables, pids: seq<ProposalId>, now: int, n: nat): Tables
    requires n <= |pids| && forall i :: 0 <= i < |pids| ==> pids[i] in t.proposals
    ensures TimeoutMany(t, pids, now, n).proposals.Keys == t.proposals.Keys
  {
    if n == 0 then t else TimeoutOne(TimeoutMany(t, pids, now, n - 1), pids[n - 1], now)
  }

  /** The answer to the sweep's query: the tenant's expired pending proposals, soonest expiry first. */
  ghost predicate QueryAnswer(t: Tables, tenant: string, now: int, pids: seq<ProposalId>) {
    && (forall pid :: pid in pids <==> Expired(t, tenant, pid, now))
    && Distinct(pids)
    && forall i, j :: 0 <= i < j < |pids| && pids[i] in t.proposals && pids[j] in t.proposals ==>
         t.proposals[pids[i]].expiresAt <= t.proposals[pids[j]].expiresAt
  }

  // ---- the code ----

  class ReviewQueue {
    var proposals: map<ProposalId, Proposal>
    var memories: seq<Memory>
    var audit: seq<Audit>

    function View(): Tables
      reads this
    {
      Tables(proposals, memories, audit)
    }

    method WriteMemory(pid: ProposalId, content: string, review: Status, supersedes: Option<MemoryId>, now: int)
      returns (id: MemoryId)
      requires pid in proposals
      modifies this`memories
      ensures View() == MemoryWritten(old(View()), pid, content, review, supersedes, now)
      ensures id == |old(memories)|
    {
      id := |memories|;
      memories := memories + [Memory(pid, proposals[pid].tenant, content, review, None, None)];
      if supersedes.Some? && supersedes.value < id {
        var m := memories[supersedes.value];
        if m.validTo.None? || m.validTo.value > now {
          memories := memories[supersedes.value :=
            m.(validTo := if m.validTo.None? then Some(now) else m.validTo, invalidatedBy := Some(id))];
        }
      }
    }

    method TakeAction(tenant: string, pid: ProposalId, a: Action, now: int) returns (r: Response)
      modifies this
      ensures (View(), r) == Act(old(View()), tenant, pid, a, now)
    {
      if pid !in proposals || proposals[pid].tenant != tenant {
        return NotFound;
      }
      var p := proposals[pid];
      var log := Audit(pid, a.actor, a.decision, now);
      match a.decision {
        case Inspect =>
          audit := audit + [log];
          return Done(Inspect, p.status, p.memory, None);
        case Deny =>
          if !p.status.Pending? {
            return Conflict;
          }
          proposals := proposals[pid := p.(status := Rejected)];
          audit := audit + [log];
          return Done(Deny, Rejected, None, None);
        case Approve =>
          if !p.status.Pending? {
            return Conflict;
          }
          var id := WriteMemory(pid, p.content, Accepted, None, now);
          proposals := proposals[pid := p.(status := Accepted, memory := Some(id))];
          audit := audit + [log];
          return Done(Approve, Accepted, Some(id), None);
        case Edit =>
          if a.edited == "" {
            return Unprocessable;
          }
          if p.status.Pending? {
            var id := WriteMemory(pid, a.edited, Accepted, None, now);
            proposals := proposals[pid := p.(status := Accepted, memory := Some(id))];
            audit := audit + [log];
            return Done(Edit, Accepted, Some(id), None);
          } else if p.status.Accepted? || p.status.AcceptedByTimeout? {
            var id := WriteMemory(pid, a.edited, Accepted, p.memory, now);
            proposals := proposals[pid := p.(status := Superseded, supersededBy := Some(pid))];
            audit := audit + [log];
            return Done(Edit, Superseded, Some(id), p.memory);
          }
          return Conflict;
        case TimeoutAccept =>
          return Unprocessable;
      }
    }

    /** The loop body of the sweep. */
    method AcceptExpired(pid: ProposalId, now: int)
      requires pid in proposals
      modifies this
      ensures View() == TimeoutOne(old(View()), pid, now)
    {
      var p := proposals[pid];
      var id := WriteMemory(pid, p.content, AcceptedByTimeout, None, now);
      proposals := proposals[pid := p.(status := AcceptedByTimeout, memory := Some(id))];
      audit := audit + [Audit(pid, "system", TimeoutAccept, now)];
    }

    /** expired is the answer to the sweep's query. */
    method ProcessTimeouts(expired: seq<ProposalId>, now: int) returns (processed: nat)
      requires forall i :: 0 <= i < |expired| ==> expired[i] in proposals
      modifies this
      ensures View() == TimeoutMany(old(View()), expired, now, |expired|)
      ensures processed == |expired|
    {
      processed := 0;
      for i := 0 to |expired|
        invariant processed == i && proposals.Keys == old(proposals).Keys
        invariant View() == TimeoutMany(old(View()), expired, now, i)
      {
        AcceptExpired(expired[i], now);
        processed := processed + 1;
      }
    }
  }

  // ---- runs ----

  datatype Event =
    | Propose(pid: ProposalId, tenant: string, content: string, expiresAt: int)
    | Take(tenant: string, pid: ProposalId, action: Action, now: int)
    | Sweep(expired: seq<ProposalId>, tenant: string, now: int)

  /** The event can happen here: a new proposal gets a new id, a sweep works on its query's answer. */
  ghost predicate Possible(t: Tables, e: Event) {
    match e
    case Propose(pid, _, _, _) => pid !in t.proposals
    case Take(_, _, _, _) => true
    case Sweep(expired, tenant, now) => QueryAnswer(t, tenant, now, expired)
  }

  ghost function Next(t: Tables, e: Event): Tables
    requires Possible(t, e)
  {
    match e
    case Propose(pid, tenant, content, expiresAt) =>
      WithProposal(t, pid, Proposal(tenant, Pending, content, expiresAt, None, None))
    case Take(tenant, pid, action, now) => Act(t, tenant, pid, action, now).0
    case Sweep(expired, tenant, now) =>
      SweepCovers(t, tenant, now, expired);
      TimeoutMany(t, expired, now, |expired|)
  }

  lemma SweepCovers(t: Tables, tenant: string, now: int, expired: seq<ProposalId>)
    requires QueryAnswer(t, tenant, now, expired)
    ensures forall i :: 0 <= i < |expired| ==> expired[i] in t.proposals
  {
    forall i | 0 <= i < |expired| ensures expired[i] in t.proposals {
      assert expired[i] in expired;
    }
  }

  ghost predicate IsRun(states: seq<Tables>, events: seq<Event>) {
    && |states| == |events| + 1
    && states[0] == Tables(map[], [], [])
    && forall i :: 0 <= i < |events| ==> Possible(states[i], events[i]) && states[i + 1] == Next(states[i], events[i])
  }

  // ---- what is true of one proposal ----

  /** The memories written for a proposal, in order. */
  function MemoriesOf(memories: seq<Memory>, pid: ProposalId, n: nat): seq<MemoryId>
    requires n <= |memories|
  {
    if n == 0 then []
    else MemoriesOf(memories, pid, n - 1) + if memories[n - 1].proposal == pid then [n - 1] else []
  }

  lemma {:induction false} MemoriesOfAgree(a: seq<Memory>, b: seq<Memory>, pid: ProposalId, n: nat)
    requires n <= |a| && n <= |b| && forall i :: 0 <= i < n ==> a[i].proposal == b[i].proposal
    ensures MemoriesOf(a, pid, n) == MemoriesOf(b, pid, n)
    ensures forall id :: id in MemoriesOf(a, pid, n) ==> id < n && a[id].proposal == pid
  {
    if n == 0 {
    } else {
      MemoriesOfAgree(a, b, pid, n - 1);
    }
  }

  predicate ValidNow(t: Tables, id: MemoryId) { id < |t.memories| && t.memories[id].validTo.None? }

  /** Status, pointer and memories of a proposal fit together. A superseded proposal keeps pointing at the
      first of its two memories, the one that is no longer valid. */
  ghost predicate Settled(t: Tables, pid: ProposalId) {
    var ids := MemoriesOf(t.memories, pid, |t.memories|);
    if pid !in t.proposals then ids == []
    else
      var p := t.proposals[pid];
      match p.status
      case Pending => ids == [] && p.memory == None
      case Rejected => ids == [] && p.memory == None
      case Accepted => |ids| == 1 && p.memory == Some(ids[0]) && ValidNow(t, ids[0])
      case AcceptedByTimeout => |ids| == 1 && p.memory == Some(ids[0]) && ValidNow(t, ids[0])
      case Superseded =>
        && |ids| == 2 && p.memory == Some(ids[0]) && !ValidNow(t, ids[0]) && ValidNow(t, ids[1])
        && ids[0] < |t.memories| && t.memories[ids[0]].invalidatedBy == Some(ids[1])
  }

  /** Writing a memory adds it to its proposal's list and disturbs no other proposal's. */
  lemma WriteEffect(t: Tables, pid: ProposalId, content: string, review: Status, supersedes: Option<MemoryId>, now: int, q: ProposalId)
    requires pid in t.proposals
    requires supersedes.Some? ==> supersedes.value < |t.memories| && t.memories[supersedes.value].proposal == pid
    ensures var t' := MemoryWritten(t, pid, content, review, supersedes, now);
            var ids := MemoriesOf(t.memories, q, |t.memories|);
            && t'.proposals == t.proposals && |t'.memories| == |t.memories| + 1
            && MemoriesOf(t'.memories, q, |t'.memories|) == (if q == pid then ids + [|t.memories|] else ids)
            && ValidNow(t', |t.memories|)
            && (forall id :: id in ids && q != pid ==> id < |t.memories| && t'.memories[id] == t.memories[id])
            && (supersedes.Some? && ValidNow(t, supersedes.value) ==>
                  !ValidNow(t', supersedes.value) && t'.memories[supersedes.value].invalidatedBy == Some(|t.memories|))
  {
    var t' := MemoryWritten(t, pid, content, review, supersedes, now);
    MemoriesOfAgree(t.memories, t'.memories, q, |t.memories|);
  }

  lemma SettledElsewhere(t: Tables, t': Tables, q: ProposalId)
    requires Settled(t, q) && q in t.proposals && q in t'.proposals && t'.proposals[q] == t.proposals[q]
    requires |t.memories| <= |t'.memories|
    requires MemoriesOf(t'.memories, q, |t'.memories|) == MemoriesOf(t.memories, q, |t.memories|)
    requires forall id :: id in MemoriesOf(t.memories, q, |t.memories|) ==> id < |t.memories| && t'.memories[id] == t.memories[id]
    ensures Settled(t', q)
  {
    var ids := MemoriesOf(t.memories, q, |t.memories|);
    assert forall i :: 0 <= i < |ids| ==> ids[i] in ids;
  }

  lemma SettledAfterFirst(t: Tables, t1: Tables, q: ProposalId, p: Proposal, a: Audit)
    requires MemoriesOf(t.memories, q, |t.memories|) == [] && |t1.memories| == |t.memories| + 1
    requires MemoriesOf(t1.memories, q, |t1.memories|) == [|t.memories|] && ValidNow(t1, |t.memories|)
    requires (p.status.Accepted? || p.status.AcceptedByTimeout?) && p.memory == Some(|t.memories|)
    ensures Settled(Audited(WithProposal(t1, q, p), a), q)
  {}

  /** Accepting a pending proposal: its first memory, with the pointer set to it. */
  lemma AcceptSettles(t: Tables, pid: ProposalId, content: string, review: Status, now: int, a: Audit, q: ProposalId)
    requires Settled(t, q) && Settled(t, pid) && pid in t.proposals && t.proposals[pid].status.Pending?
    requires review.Accepted? || review.AcceptedByTimeout?
    ensures var p := t.proposals[pid].(status := review, memory := Some(|t.memories|));
            Settled(Audited(WithProposal(MemoryWritten(t, pid, content, review, None, now), pid, p), a), q)
  {
    WriteEffect(t, pid, content, review, None, now, q);
    var p := t.proposals[pid].(status := review, memory := Some(|t.memories|));
    var t1 := MemoryWritten(t, pid, content, review, None, now);
    if q == pid {
      SettledAfterFirst(t, t1, q, p, a);
    } else if q in t.proposals {
      SettledElsewhere(t, Audited(WithProposal(t1, pid, p), a), q);
    }
  }

  /** Late feedback: a second memory, the first one ending, the pointer left where it was. */
  lemma SupersedeSettles(t: Tables, pid: ProposalId, content: string, now: int, a: Audit, q: ProposalId)
    requires Settled(t, q) && Settled(t, pid) && pid in t.proposals
    requires t.proposals[pid].status.Accepted? || t.proposals[pid].status.AcceptedByTimeout?
    ensures var p := t.proposals[pid];
            var t1 := MemoryWritten(t, pid, content, Accepted, p.memory, now);
            Settled(Audited(WithProposal(t1, pid, p.(status := Superseded, supersededBy := Some(pid))), a), q)
  {
    var p := t.proposals[pid];
    MemoriesOfAgree(t.memories, t.memories, pid, |t.memories|);
    var ids := MemoriesOf(t.memories, pid, |t.memories|);
    assert ids[0] in ids;
    WriteEffect(t, pid, content, Accepted, p.memory, now, q);
    var t1 := MemoryWritten(t, pid, content, Accepted, p.memory, now);
    if q != pid && q in t.proposals {
      SettledElsewhere(t, Audited(WithProposal(t1, pid, p.(status := Superseded, supersededBy := Some(pid))), a), q);
    }
  }

  lemma OnlyAudited(t: Tables, t': Tables, q: ProposalId)
    requires Settled(t, q) && t'.memories == t.memories
    requires q in t.proposals <==> q in t'.proposals
    requires q in t.proposals ==> t'.proposals[q] == t.proposals[q]
    ensures Settled(t', q)
  {}

  lemma ActSettles(t: Tables, tenant: string, pid: ProposalId, a: Action, now: int, q: ProposalId)
    requires Settled(t, q) && Settled(t, pid)
    ensures Settled(Act(t, tenant, pid, a, now).0, q)
  {
    var (t', r) := Act(t, tenant, pid, a, now);
    if !r.Done? {
    } else {
      var p, log := t.proposals[pid], Audit(pid, a.actor, a.decision, now);
      if a.decision.Approve? {
        AcceptSettles(t, pid, p.content, Accepted, now, log, q);
      } else if a.decision.Edit? && p.status.Pending? {
        AcceptSettles(t, pid, a.edited, Accepted, now, log, q);
      } else if a.decision.Edit? {
        SupersedeSettles(t, pid, a.edited, now, log, q);
      } else if q != pid || a.decision.Inspect? {
        OnlyAudited(t, t', q);
      }
    }
  }

  lemma {:induction false} SweepLeaves(t: Tables, expired: seq<ProposalId>, now: int, n: nat, q: ProposalId)
    requires n <= |expired| && forall i :: 0 <= i < |expired| ==> expired[i] in t.proposals
    requires q in t.proposals && q !in expired[..n]
    ensures TimeoutMany(t, expired, now, n).proposals[q] == t.proposals[q]
  {
    if n == 0 {
    } else {
      assert expired[..n] == expired[..n - 1] + [expired[n - 1]];
      assert expired[n - 1] in expired[..n];
      SweepLeaves(t, expired, now, n - 1, q);
    }
  }

  lemma TimeoutSettles(t: Tables, pid: ProposalId, now: int, q: ProposalId)
    requires Settled(t, q) && Settled(t, pid) && pid in t.proposals && t.proposals[pid].status.Pending?
    ensures Settled(TimeoutOne(t, pid, now), q)
  {
    AcceptSettles(t, pid, t.proposals[pid].content, AcceptedByTimeout, now, Audit(pid, "system", TimeoutAccept, now), q);
  }

  lemma StillPending(t: Tables, tenant: string, expired: seq<ProposalId>, now: int, n: nat)
    requires QueryAnswer(t, tenant, now, expired) && n < |expired|
    requires forall i :: 0 <= i < |expired| ==> expired[i] in t.proposals
    ensures TimeoutMany(t, expired, now, n).proposals[expired[n]].status.Pending?
  {
    var pid := expired[n];
    assert pid in expired && pid !in expired[..n];
    SweepLeaves(t, expired, now, n, pid);
  }

  /** The i-th proposal is still pending when its turn comes. */
  ghost predicate AllPending(t: Tables, expired: seq<ProposalId>, now: int)
    requires forall i :: 0 <= i < |expired| ==> expired[i] in t.proposals
  {
    forall i {:trigger TimeoutMany(t, expired, now, i)} :: 0 <= i < |expired| ==>
      TimeoutMany(t, expired, now, i).proposals[expired[i]].status.Pending?
  }

  /** The sweep touches each of its proposals once, and while still pending. */
  lemma {:induction false} SweepSettles(t: Tables, expired: seq<ProposalId>, now: int, n: nat, q: ProposalId)
    requires n <= |expired| && (forall i :: 0 <= i < |expired| ==> expired[i] in t.proposals) && AllPending(t, expired, now)
    requires forall p :: Settled(t, p)
    ensures Settled(TimeoutMany(t, expired, now, n), q)
  {
    if n == 0 {
      assert TimeoutMany(t, expired, now, 0) == t;
    } else {
      var before := TimeoutMany(t, expired, now, n - 1);
      SweepSettles(t, expired, now, n - 1, q);
      SweepSettles(t, expired, now, n - 1, expired[n - 1]);
      TimeoutSettles(before, expired[n - 1], now, q);
    }
  }

  lemma EventSettles(t: Tables, e: Event, q: ProposalId)
    requires Possible(t, e) && forall p :: Settled(t, p)
    ensures Settled(Next(t, e), q)
  {
    match e
    case Propose(pid, _, _, _) =>
      if q != pid && q in t.proposals {
        MemoriesOfAgree(t.memories, t.memories, q, |t.memories|);
        SettledElsewhere(t, Next(t, e), q);
      }
    case Take(tenant, pid, action, now) =>
      ActSettles(t, tenant, pid, action, now, q);
    case Sweep(expired, tenant, now) =>
      SweepCovers(t, tenant, now, expired);
      forall i | 0 <= i < |expired| ensures TimeoutMany(t, expired, now, i).proposals[expired[i]].status.Pending? {
        StillPending(t, tenant, expired, now, i);
      }
      SweepSettles(t, expired, now, |expired|, q);
  }

  /** Over every run: a pending or rejected proposal has no memory; an accepted one has exactly one, and it
      is valid; a superseded one has two, of which exactly the second is valid. */
  lemma {:induction false} RunsSettle(states: seq<Tables>, events: seq<Event>, n: nat, q: ProposalId)
    requires IsRun(states, events) && n < |states|
    ensures Settled(states[n], q)
  {
    if n == 0 {
    } else {
      var t := states[n - 1];
      forall p ensures Settled(t, p) {
        RunsSettle(states, events, n - 1, p);
      }
      assert Possible(t, events[n - 1]);
      EventSettles(t, events[n - 1], q);
    }
  }

  // ---- terminal states, audit, expiry ----

  predicate Terminal(s: Status) { s.Rejected? || s.Superseded? }

  /** Rejected and superseded are final, and nothing ever returns to pending. */
  lemma StatusMovesForward(states: seq<Tables>, events: seq<Event>, i: nat, q: ProposalId)
    requires IsRun(states, events) && i < |events| && q in states[i].proposals
    ensures q in states[i + 1].proposals
    ensures var s, s' := states[i].proposals[q].status, states[i + 1].proposals[q].status;
            && (Terminal(s) ==> s' == s)
            && (s != s' ==> !s'.Pending?)
            && (s != s' && !s.Pending? ==> s'.Superseded?)
  {
    var t, e := states[i], events[i];
    assert Possible(t, e) && states[i + 1] == Next(t, e);
    if e.Sweep? {
      SweepCovers(t, e.tenant, e.now, e.expired);
      assert e.expired[..|e.expired|] == e.expired;
      if q in e.expired {
        SweepStatus(t, e.expired, e.now, |e.expired|, q);
      } else {
        SweepLeaves(t, e.expired, e.now, |e.expired|, q);
      }
    }
  }

  lemma {:induction false} SweepStatus(t: Tables, expired: seq<ProposalId>, now: int, n: nat, q: ProposalId)
    requires n <= |expired| && forall i :: 0 <= i < |expired| ==> expired[i] in t.proposals
    requires q in t.proposals
    ensures var s' := TimeoutMany(t, expired, now, n).proposals[q].status;
            s' == t.proposals[q].status || s'.AcceptedByTimeout?
  {
    if n == 0 {
    } else {
      SweepStatus(t, expired, now, n - 1, q);
    }
  }

  /** An action that succeeds adds exactly one audit row, its own; one that fails changes nothing. */
  lemma ActionsAudited(t: Tables, tenant: string, pid: ProposalId, a: Action, now: int)
    ensures var (t', r) := Act(t, tenant, pid, a, now);
            && (r.Done? ==> t'.audit == t.audit + [Audit(pid, a.actor, a.decision, now)])
            && (!r.Done? ==> t' == t)
  {}

  lemma TimeoutAudits(t: Tables, pid: ProposalId, now: int)
    requires pid in t.proposals
    ensures TimeoutOne(t, pid, now).audit == t.audit + [Audit(pid, "system", TimeoutAccept, now)]
  {}

  /** The audit rows of a sweep's first n proposals. */
  function SweepRows(pids: seq<ProposalId>, now: int, n: nat): (r: seq<Audit>)
    requires n <= |pids|
    ensures |r| == n && forall i :: 0 <= i < n ==> r[i] == Audit(pids[i], "system", TimeoutAccept, now)
  {
    if n == 0 then [] else SweepRows(pids, now, n - 1) + [Audit(pids[n - 1], "system", TimeoutAccept, now)]
  }

  /** A sweep adds one audit row per proposal it accepts, in order. */
  lemma {:induction false} SweepsAudited(t: Tables, pids: seq<ProposalId>, now: int, n: nat)
    requires n <= |pids| && forall i :: 0 <= i < |pids| ==> pids[i] in t.proposals
    ensures TimeoutMany(t, pids, now, n).audit == t.audit + SweepRows(pids, now, n)
  {
    if n == 0 {
      assert TimeoutMany(t, pids, now, 0).audit == t.audit;
    } else {
      SweepsAudited(t, pids, now, n - 1);
      TimeoutAudits(TimeoutMany(t, pids, now, n - 1), pids[n - 1], now);
    }
  }

  lemma {:induction false} SweepKeepsExpiry(t: Tables, expired: seq<ProposalId>, now: int, n: nat, q: ProposalId)
    requires n <= |expired| && forall i :: 0 <= i < |expired| ==> expired[i] in t.proposals
    requires q in t.proposals
    ensures TimeoutMany(t, expired, now, n).proposals[q].expiresAt == t.proposals[q].expiresAt
  {
    if n == 0 {
    } else {
      SweepKeepsExpiry(t, expired, now, n - 1, q);
    }
  }

  ghost predicate Timely(t: Tables, a: Audit) {
    a.decision.TimeoutAccept? ==> a.proposal in t.proposals && t.proposals[a.proposal].expiresAt <= a.at
  }

  lemma SweepTimely(t: Tables, tenant: string, expired: seq<ProposalId>, now: int, k: nat)
    requires QueryAnswer(t, tenant, now, expired)
    requires forall i :: 0 <= i < |expired| ==> expired[i] in t.proposals
    requires forall i :: 0 <= i < |t.audit| ==> Timely(t, t.audit[i])
    requires k < |TimeoutMany(t, expired, now, |expired|).audit|
    ensures var t' := TimeoutMany(t, expired, now, |expired|); Timely(t', t'.audit[k])
  {
    SweepsAudited(t, expired, now, |expired|);
    var t' := TimeoutMany(t, expired, now, |expired|);
    var a := t'.audit[k];
    if k < |t.audit| {
      assert Timely(t, t.audit[k]);
    } else {
      assert a.proposal == expired[k - |t.audit|] && a.proposal in expired;
    }
    if a.proposal in t.proposals {
      SweepKeepsExpiry(t, expired, now, |expired|, a.proposal);
    }
  }

  /** No proposal is accepted by timeout before its expiry: every timeout row of the trail is dated at or
      after the expiry of the proposal it accepts. */
  lemma {:induction false} TimeoutsRespectExpiry(states: seq<Tables>, events: seq<Event>, n: nat)
    requires IsRun(states, events) && n < |states|
    ensures forall k :: 0 <= k < |states[n].audit| ==> Timely(states[n], states[n].audit[k])
  {
    if n == 0 {
    } else {
      TimeoutsRespectExpiry(states, events, n - 1);
      var t, t', e := states[n - 1], states[n], events[n - 1];
      assert Possible(t, e) && t' == Next(t, e);
      match e
      case Propose(_, _, _, _) =>
      case Take(tenant, pid, action, now) =>
        ActionsAudited(t, tenant, pid, action, now);
      case Sweep(expired, tenant, now) =>
        SweepCovers(t, tenant, now, expired);
        forall k | 0 <= k < |t'.audit| ensures Timely(t', t'.audit[k]) {
          SweepTimely(t, tenant, expired, now, k);
        }
    }
  }

  // ---- where memories come from ----

  /** What a memory says, and for whom; only its validity ever changes. */
  predicate SameText(m: Memory, m': Memory) {
    m'.proposal == m.proposal && m'.tenant == m.tenant && m'.content == m.content && m'.reviewStatus == m.reviewStatus
  }

  /** Some reviewer's edit among the first n events gave this proposal this text. */
  ghost predicate EditedTo(events: seq<Event>, n: nat, pid: ProposalId, content: string) {
    exists k :: 0 <= k < n && k < |events| && IsEdit(events[k], pid, content)
  }

  predicate IsEdit(e: Event, pid: ProposalId, content: string) {
    e.Take? && e.pid == pid && e.action.decision.Edit? && e.action.edited == content && content != ""
  }

  /** The memory is its proposal's: the tenant's, with the proposed text or, unless a timeout wrote it, an edited one. */
  ghost predicate Authored(t: Tables, events: seq<Event>, n: nat, m: Memory) {
    && m.proposal in t.proposals && m.tenant == t.proposals[m.proposal].tenant
    && (m.reviewStatus.Accepted? || m.reviewStatus.AcceptedByTimeout?)
    && (m.content == t.proposals[m.proposal].content || (m.reviewStatus.Accepted? && EditedTo(events, n, m.proposal, m.content)))
  }

  /** A proposal keeps its tenant and text. */
  ghost predicate ProposalsKept(t: Tables, t': Tables) {
    forall q :: q in t.proposals ==>
      q in t'.proposals && t'.proposals[q].tenant == t.proposals[q].tenant && t'.proposals[q].content == t.proposals[q].content
  }

  /** The memories of t' are those of t and, behind them, at most the one that was written. */
  ghost predicate OneWritten(t: Tables, t': Tables) {
    && |t.memories| <= |t'.memories| <= |t.memories| + 1
    && forall id :: 0 <= id < |t.memories| ==> SameText(t.memories[id], t'.memories[id])
  }

  lemma WriteAppends(t: Tables, pid: ProposalId, content: string, review: Status, supersedes: Option<MemoryId>, now: int)
    requires pid in t.proposals
    ensures var t' := MemoryWritten(t, pid, content, review, supersedes, now);
            && OneWritten(t, t') && |t'.memories| == |t.memories| + 1 && t'.proposals == t.proposals
            && SameText(Memory(pid, t.proposals[pid].tenant, content, review, None, None), t'.memories[|t.memories|])
  {}

  /** An approval writes the proposed text and an edit the edited one, for the proposal's tenant. */
  lemma ActionsWrite(t: Tables, tenant: string, pid: ProposalId, a: Action, now: int)
    ensures var t' := Act(t, tenant, pid, a, now).0;
            && ProposalsKept(t, t') && OneWritten(t, t')
            && (|t'.memories| == |t.memories| + 1 ==>
                  var m := t'.memories[|t.memories|];
                  && pid in t.proposals && m.proposal == pid && m.tenant == t.proposals[pid].tenant && m.reviewStatus.Accepted?
                  && ((a.decision.Approve? && m.content == t.proposals[pid].content)
                      || (a.decision.Edit? && m.content == a.edited != "")))
  {
    if pid in t.proposals {
      var p := t.proposals[pid];
      if a.decision.Approve? {
        WriteAppends(t, pid, p.content, Accepted, None, now);
      } else if a.decision.Edit? {
        WriteAppends(t, pid, a.edited, Accepted, if p.status.Pending? then None else p.memory, now);
      }
    }
  }

  lemma TimeoutWrites(t: Tables, pid: ProposalId, now: int)
    requires pid in t.proposals
    ensures var t' := TimeoutOne(t, pid, now);
            && ProposalsKept(t, t') && OneWritten(t, t') && |t'.memories| == |t.memories| + 1
            && SameText(Memory(pid, t.proposals[pid].tenant, t.proposals[pid].content, AcceptedByTimeout, None, None),
                        t'.memories[|t.memories|])
  {
    WriteAppends(t, pid, t.proposals[pid].content, AcceptedByTimeout, None, now);
  }

  lemma StaysAuthored(t: Tables, t': Tables, events: seq<Event>, n: nat, m: Memory, m': Memory)
    requires Authored(t, events, n, m) && ProposalsKept(t, t') && SameText(m, m')
    ensures Authored(t', events, n, m') && Authored(t', events, n + 1, m')
  {
    if EditedTo(events, n, m.proposal, m.content) {
      var k :| 0 <= k < n && k < |events| && IsEdit(events[k], m.proposal, m.content);
    }
  }

  ghost predicate AllAuthored(t: Tables, events: seq<Event>, n: nat) {
    forall id :: 0 <= id < |t.memories| ==> Authored(t, events, n, t.memories[id])
  }

  lemma {:induction false} SweepAuthors(t: Tables, events: seq<Event>, n: nat, expired: seq<ProposalId>, now: int, k: nat)
    requires k <= |expired| && forall i :: 0 <= i < |expired| ==> expired[i] in t.proposals
    requires AllAuthored(t, events, n)
    ensures AllAuthored(TimeoutMany(t, expired, now, k), events, n)
  {
    if k == 0 {
      assert TimeoutMany(t, expired, now, 0) == t;
    } else {
      var before, after := TimeoutMany(t, expired, now, k - 1), TimeoutMany(t, expired, now, k);
      SweepAuthors(t, events, n, expired, now, k - 1);
      TimeoutWrites(before, expired[k - 1], now);
      forall id | 0 <= id < |before.memories| ensures Authored(after, events, n, after.memories[id]) {
        StaysAuthored(before, after, events, n, before.memories[id], after.memories[id]);
      }
    }
  }

  lemma LaterAuthored(t: Tables, events: seq<Event>, n: nat)
    requires AllAuthored(t, events, n)
    ensures AllAuthored(t, events, n + 1)
  {
    forall id | 0 <= id < |t.memories| ensures Authored(t, events, n + 1, t.memories[id]) {
      StaysAuthored(t, t, events, n, t.memories[id], t.memories[id]);
    }
  }

  lemma TakeAuthors(t: Tables, events: seq<Event>, n: nat)
    requires n < |events| && events[n].Take? && AllAuthored(t, events, n)
    ensures AllAuthored(Next(t, events[n]), events, n + 1)
  {
    var e, t' := events[n], Next(t, events[n]);
    ActionsWrite(t, e.tenant, e.pid, e.action, e.now);
    forall id | 0 <= id < |t.memories| ensures Authored(t', events, n + 1, t'.memories[id]) {
      StaysAuthored(t, t', events, n, t.memories[id], t'.memories[id]);
    }
    if |t'.memories| == |t.memories| + 1 && e.action.decision.Edit? {
      assert IsEdit(events[n], e.pid, e.action.edited);
    }
  }

  /** Over every run, each memory is its proposal's tenant's and says what was proposed or what some reviewer
      made of it; what a timeout accepted is never an edited text. */
  lemma {:induction false} MemoriesAreAuthored(states: seq<Tables>, events: seq<Event>, n: nat)
    requires IsRun(states, events) && n < |states|
    ensures AllAuthored(states[n], events, n)
  {
    if n == 0 {
      assert states[0].memories == [];
    } else {
      var t, e := states[n - 1], events[n - 1];
      MemoriesAreAuthored(states, events, n - 1);
      assert Possible(t, e) && states[n] == Next(t, e);
      match e
      case Propose(_, _, _, _) =>
        forall id | 0 <= id < |t.memories| ensures Authored(states[n], events, n, t.memories[id]) {
          StaysAuthored(t, states[n], events, n - 1, t.memories[id], t.memories[id]);
        }
      case Take(_, _, _, _) => TakeAuthors(t, events, n - 1);
      case Sweep(expired, tenant, now) =>
        SweepCovers(t, tenant, now, expired);
        SweepAuthors(t, events, n - 1, expired, now, |expired|);
        LaterAuthored(states[n], events, n - 1);
    }
  }
}
