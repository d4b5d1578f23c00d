/** The review queue statement by statement. The endpoints open no transaction and lock no row, so that the
    statements of two calls about one proposal can interleave. A sweep is one timeout call for each row of its
    query's answer. */
module ReflectionStatements {
  import opened Collections
  import opened ReflectionReview

  type Id = nat

  datatype Call = Call(tenant: string, pid: ProposalId, action: Action, now: int)

  /** What a call set out to do once it had read the proposal. */
  datatype Kind = First | Late | Denial

  /** The statement that comes next. Turned: the call ended with an error. */
  datatype Phase =
    | Fresh
    | Inserting(content: string, review: Status, late: Option<MemoryId>)
    | Ending(earlier: MemoryId, later: MemoryId)
    | Marking(status: Status, memory: Option<MemoryId>)
    | Logging
    | Over
    | Turned

  datatype Running = Running(call: Call, phase: Phase, kind: Option<Kind>)

  /** The proposal is read, and the rest of the call decided on what was read. */
  function Look(t: Tables, c: Call): (Phase, Option<Kind>) {
    if c.pid !in t.proposals || t.proposals[c.pid].tenant != c.tenant then (Turned, None)
    else
      var p := t.proposals[c.pid];
      match c.action.decision
      case Inspect => (Logging, None)
      case Deny => if p.status.Pending? then (Marking(Rejected, None), Some(Denial)) else (Turned, None)
      case Approve => if p.status.Pending? then (Inserting(p.content, Accepted, None), Some(First)) else (Turned, None)
      case Edit =>
        if c.action.edited == "" then (Turned, None)
        else if p.status.Pending? then (Inserting(c.action.edited, Accepted, None), Some(First))
        else if p.status.Accepted? || p.status.AcceptedByTimeout? then (Inserting(c.action.edited, Accepted, p.memory), Some(Late))
        else (Turned, None)
      case TimeoutAccept =>
        if p.status.Pending? && p.expiresAt <= c.now then (Inserting(p.content, AcceptedByTimeout, None), Some(First))
        else (Turned, None)
  }

  function Inserted(t: Tables, m: Memory): Tables { t.(memories := t.memories + [m]) }

  function Ended(t: Tables, earlier: MemoryId, later: MemoryId, now: int): Tables {
    if earlier < |t.memories| && (t.memories[earlier].validTo.None? || t.memories[earlier].validTo.value > now) then
      var m := t.memories[earlier];
      t.(memories := t.memories[earlier :=
        m.(validTo := if m.validTo.None? then Some(now) else m.validTo, invalidatedBy := Some(later))])
    else t
  }

  function Marked(t: Tables, pid: ProposalId, status: Status, memory: Option<MemoryId>): Tables {
    if pid !in t.proposals then t
    else
      var p := t.proposals[pid];
      WithProposal(t, pid, p.(status := status,
                              memory := if memory.Some? then memory else p.memory,
                              supersededBy := if status.Superseded? then Some(pid) else p.supersededBy))
  }

  function Statement(t: Tables, r: Running): (Tables, Running) {
    var c := r.call;
    match r.phase
    case Fresh => var (phase, kind) := Look(t, c); (t, r.(phase := phase, kind := kind))
    case Inserting(content, review, late) =>
      (Inserted(t, Memory(c.pid, c.tenant, content, review, None, None)),
       r.(phase := if late.Some? then Ending(late.value, |t.memories|)
                   else if r.kind == Some(Late) then Marking(Superseded, None)
                   else Marking(review, Some(|t.memories|))))
    case Ending(earlier, later) => (Ended(t, earlier, later, c.now), r.(phase := Marking(Superseded, None)))
    case Marking(status, memory) => (Marked(t, c.pid, status, memory), r.(phase := Logging))
    case Logging => (Audited(t, Audit(c.pid, c.action.actor, c.action.decision, c.now)), r.(phase := Over))
    case Over => (t, r)
    case Turned => (t, r)
  }

  function Alone(t: Tables, r: Running, n: nat): (Tables, Running)
    decreases n
  {
    if n == 0 then (t, r) else var (t', r') := Statement(t, r); Alone(t', r', n - 1)
  }

  // ---- an uninterrupted call is the step ----

  lemma {:induction false} AloneEnds(t: Tables, r: Running, n: nat)
    requires r.phase.Over? || r.phase.Turned?
    ensures Alone(t, r, n) == (t, r)
  {
    if n == 0 {
      assert Alone(t, r, 0) == (t, r);
    } else {
      AloneEnds(t, r, n - 1);
    }
  }

  lemma AloneMarks(t: Tables, r: Running, n: nat)
    requires r.phase.Marking? && n >= 2
    ensures Alone(t, r, n)
         == (Audited(Marked(t, r.call.pid, r.phase.status, r.phase.memory),
                     Audit(r.call.pid, r.call.action.actor, r.call.action.decision, r.call.now)), r.(phase := Over))
  {
    var (t1, r1) := Statement(t, r);
    var (t2, r2) := Statement(t1, r1);
    assert Alone(t, r, n) == Alone(t1, r1, n - 1) == Alone(t2, r2, n - 2);
    AloneEnds(t2, r2, n - 2);
  }

  lemma AloneInserts(t: Tables, r: Running, n: nat)
    requires r.phase.Inserting? && r.call.pid in t.proposals && t.proposals[r.call.pid].tenant == r.call.tenant && n >= 4
    requires r.kind == Some(Late) <==> r.phase.late.Some?
    requires r.phase.late.Some? ==> r.phase.late.value < |t.memories|
    ensures var c := r.call;
            var written := MemoryWritten(t, c.pid, r.phase.content, r.phase.review, r.phase.late, c.now);
            var status := if r.kind == Some(Late) then Superseded else r.phase.review;
            var memory := if r.kind == Some(Late) then None else Some(|t.memories|);
            Alone(t, r, n)
            == (Audited(Marked(written, c.pid, status, memory), Audit(c.pid, c.action.actor, c.action.decision, c.now)),
                r.(phase := Over))
  {
    var (t1, r1) := Statement(t, r);
    assert Alone(t, r, n) == Alone(t1, r1, n - 1);
    if r.kind == Some(Late) {
      var (t2, r2) := Statement(t1, r1);
      assert t2 == MemoryWritten(t, r.call.pid, r.phase.content, r.phase.review, r.phase.late, r.call.now);
      assert Alone(t1, r1, n - 1) == Alone(t2, r2, n - 2);
      AloneMarks(t2, r2, n - 2);
    } else {
      AloneMarks(t1, r1, n - 1);
    }
  }

  /** Undisturbed, the statements of a reviewer's call amount to the step of the queue. */
  lemma AloneIsAct(t: Tables, c: Call)
    requires !c.action.decision.TimeoutAccept? && Settled(t, c.pid)
    ensures var (t', r) := Alone(t, Running(c, Fresh, None), 5);
            var (after, reply) := Act(t, c.tenant, c.pid, c.action, c.now);
            t' == after && r.phase == if reply.Done? then Over else Turned
  {
    var (t1, r1) := Statement(t, Running(c, Fresh, None));
    assert Alone(t, Running(c, Fresh, None), 5) == Alone(t1, r1, 4);
    if r1.phase.Inserting? {
      AloneInserts(t1, r1, 4);
    } else if r1.phase.Marking? {
      AloneMarks(t1, r1, 4);
    } else if r1.phase.Logging? {
      var (t2, r2) := Statement(t1, r1);
      assert Alone(t1, r1, 4) == Alone(t2, r2, 3);
      AloneEnds(t2, r2, 3);
    } else {
      AloneEnds(t1, r1, 4);
    }
  }

  /** And so do those of a timeout with the step of the sweep. */
  lemma AloneIsTimeout(t: Tables, c: Call)
    requires c.action.decision.TimeoutAccept? && Expired(t, c.tenant, c.pid, c.now)
    ensures Alone(t, Running(c.(action := c.action.(actor := "system")), Fresh, None), 5).0 == TimeoutOne(t, c.pid, c.now)
  {
    var r := Running(c.(action := c.action.(actor := "system")), Fresh, None);
    var (t1, r1) := Statement(t, r);
    assert Alone(t, r, 5) == Alone(t1, r1, 4);
    AloneInserts(t1, r1, 4);
  }

  // ---- runs ----

  datatype World = World(tables: Tables, calls: map<Id, Running>)

  datatype Move =
    | Submit(pid: ProposalId, tenant: string, content: string, expiresAt: int)
    | Begin(id: Id, call: Call)
    | Turn(id: Id)

  function Moved(w: World, m: Move): World {
    match m
    case Submit(pid, tenant, content, expiresAt) =>
      if pid in w.tables.proposals then w
      else w.(tables := WithProposal(w.tables, pid, Proposal(tenant, Pending, content, expiresAt, None, None)))
    case Begin(id, call) => if id in w.calls then w else w.(calls := w.calls[id := Running(call, Fresh, None)])
    case Turn(id) =>
      if id !in w.calls then w
      else var (t, r) := Statement(w.tables, w.calls[id]); World(t, w.calls[id := r])
  }

  function WorldAt(moves: seq<Move>, n: nat): World
    requires n <= |moves|
  {
    if n == 0 then World(Tables(map[], [], []), map[]) else Moved(WorldAt(moves, n - 1), moves[n - 1])
  }

  predicate On(w: World, x: Id, q: ProposalId) { x in w.calls && w.calls[x].call.pid == q }

  predicate Changing(p: Phase) { p.Inserting? || p.Ending? || p.Marking? }

  /** Call x has read proposal q and not yet updated its status. */
  predicate Mutating(w: World, x: Id, q: ProposalId) { On(w, x, q) && Changing(w.calls[x].phase) }

  ghost predicate Quiet(w: World, q: ProposalId) { forall x :: !Mutating(w, x, q) }

  /** The move is a call's read of q, made to change it, while another call is about to change it. */
  ghost predicate ClashAt(w: World, m: Move, q: ProposalId) {
    && m.Turn? && On(w, m.id, q) && w.calls[m.id].phase.Fresh? && Changing(Look(w.tables, w.calls[m.id].call).0)
    && !Quiet(w, q)
  }

  ghost predicate Clashed(moves: seq<Move>, n: nat, q: ProposalId)
    requires n <= |moves|
  {
    n != 0 && (Clashed(moves, n - 1, q) || ClashAt(WorldAt(moves, n - 1), moves[n - 1], q))
  }

  // ---- memories never change hands ----

  predicate Owned(t: Tables, id: MemoryId, q: ProposalId) { id < |t.memories| && t.memories[id].proposal == q }

  ghost predicate Points(t: Tables, q: ProposalId) {
    q in t.proposals && t.proposals[q].memory.Some? ==> Owned(t, t.proposals[q].memory.value, q)
  }

  /** The memories a call is about to touch or name are its proposal's. */
  ghost predicate Aims(t: Tables, r: Running) {
    match r.phase
    case Inserting(_, _, late) => late.Some? ==> Owned(t, late.value, r.call.pid)
    case Ending(earlier, later) => Owned(t, earlier, r.call.pid) && Owned(t, later, r.call.pid)
    case Marking(_, memory) => memory.Some? ==> Owned(t, memory.value, r.call.pid)
    case _ => true
  }

  lemma StatementAims(t: Tables, r: Running)
    requires Aims(t, r) && Points(t, r.call.pid)
    ensures Aims(Statement(t, r).0, Statement(t, r).1) && Points(Statement(t, r).0, r.call.pid)
  {}

  lemma StatementElsewhere(t: Tables, r: Running, s: Running, q: ProposalId)
    requires Aims(t, s) && Points(t, q) && r.call.pid != q
    ensures Aims(Statement(t, r).0, s) && Points(Statement(t, r).0, q)
  {}

  ghost predicate Aimed(w: World, x: Id, q: ProposalId) { Points(w.tables, q) && (x in w.calls ==> Aims(w.tables, w.calls[x])) }

  lemma {:induction false} RunAimed(moves: seq<Move>, n: nat, x: Id, q: ProposalId)
    requires n <= |moves|
    ensures Aimed(WorldAt(moves, n), x, q)
  {
    if n == 0 {
      assert WorldAt(moves, 0) == World(Tables(map[], [], []), map[]);
    } else {
      var w, m := WorldAt(moves, n - 1), moves[n - 1];
      RunAimed(moves, n - 1, x, q);
      if m.Turn? && m.id in w.calls {
        RunAimed(moves, n - 1, m.id, w.calls[m.id].call.pid);
        TurnAimed(w, m.id, x, q);
      }
    }
  }

  lemma TurnAimed(w: World, turn: Id, x: Id, q: ProposalId)
    requires turn in w.calls && Aimed(w, turn, w.calls[turn].call.pid) && Aimed(w, x, q)
    ensures Aimed(Moved(w, Turn(turn)), x, q)
  {
    var r := w.calls[turn];
    StatementAims(w.tables, r);
    if q != r.call.pid {
      StatementElsewhere(w.tables, r, r, q);
    }
  }

  // ---- the memories of a proposal ----

  function IdsOf(t: Tables, q: ProposalId): seq<MemoryId> { MemoriesOf(t.memories, q, |t.memories|) }

  lemma InsertedIds(t: Tables, m: Memory, q: ProposalId)
    ensures IdsOf(Inserted(t, m), q) == IdsOf(t, q) + if m.proposal == q then [|t.memories|] else []
  {
    MemoriesOfAgree(t.memories, Inserted(t, m).memories, q, |t.memories|);
  }

  lemma EndedIds(t: Tables, earlier: MemoryId, later: MemoryId, now: int, q: ProposalId)
    ensures IdsOf(Ended(t, earlier, later, now), q) == IdsOf(t, q)
  {
    MemoriesOfAgree(t.memories, Ended(t, earlier, later, now).memories, q, |t.memories|);
  }

  lemma IdsAreOwned(t: Tables, q: ProposalId, k: nat)
    requires k < |IdsOf(t, q)|
    ensures Owned(t, IdsOf(t, q)[k], q)
  {
    MemoriesOfAgree(t.memories, t.memories, q, |t.memories|);
    assert IdsOf(t, q)[k] in IdsOf(t, q);
  }

  lemma {:induction false} IdsRise(memories: seq<Memory>, q: ProposalId, n: nat)
    requires n <= |memories|
    ensures forall i, j :: 0 <= i < j < |MemoriesOf(memories, q, n)| ==> MemoriesOf(memories, q, n)[i] < MemoriesOf(memories, q, n)[j]
    ensures forall i :: 0 <= i < |MemoriesOf(memories, q, n)| ==> MemoriesOf(memories, q, n)[i] < n
  {
    if n == 0 {
      assert MemoriesOf(memories, q, 0) == [];
    } else {
      IdsRise(memories, q, n - 1);
    }
  }

  /** The tables look the same from q. */
  ghost predicate Alike(t: Tables, t': Tables, q: ProposalId) {
    && (q in t.proposals <==> q in t'.proposals) && (q in t.proposals ==> t.proposals[q] == t'.proposals[q])
    && |t.memories| <= |t'.memories| && IdsOf(t, q) == IdsOf(t', q)
    && forall id: MemoryId :: Owned(t, id, q) ==> t'.memories[id] == t.memories[id]
  }

  /** Statements about other proposals, reads and audit rows leave q alone. */
  lemma StatementAlike(t: Tables, r: Running, q: ProposalId)
    requires Aims(t, r) && (r.call.pid != q || !Changing(r.phase))
    ensures Alike(t, Statement(t, r).0, q)
  {
    match r.phase
    case Inserting(content, review, late) => InsertedIds(t, Memory(r.call.pid, r.call.tenant, content, review, None, None), q);
    case Ending(earlier, later) => EndedIds(t, earlier, later, r.call.now, q);
    case _ =>
  }

  // ---- what a call set out to do ----

  predicate Past(p: Phase) { p.Logging? || p.Over? }

  predicate Accepting(s: Status) { s.Accepted? || s.AcceptedByTimeout? }

  predicate OfKind(w: World, x: Id, q: ProposalId, kind: Kind) { On(w, x, q) && w.calls[x].kind == Some(kind) }

  /** What a call's kind says of its phase. */
  predicate Sound(r: Running) {
    && (r.kind == None || r.kind == Some(First) || r.kind == Some(Late) || r.kind == Some(Denial))
    && (Changing(r.phase) <==> r.kind.Some? && !Past(r.phase))
    && (r.phase.Ending? ==> r.kind == Some(Late))
    && (r.phase.Inserting? ==> r.kind != Some(Denial))
    && (r.phase.Inserting? && r.kind == Some(First) ==> r.phase.late.None? && Accepting(r.phase.review))
    && (r.phase.Marking? && r.kind == Some(First) ==> Accepting(r.phase.status))
    && (r.phase.Marking? && r.kind == Some(Late) ==> r.phase.status.Superseded? && r.phase.memory.None?)
    && (r.phase.Marking? && r.kind == Some(Denial) ==> r.phase.status.Rejected? && r.phase.memory.None?)
    && (r.kind == Some(Denial) ==> r.call.action.decision.Deny?)
  }

  lemma StatementSound(t: Tables, r: Running)
    requires Sound(r)
    ensures Sound(Statement(t, r).1)
    ensures r.kind.Some? ==> Statement(t, r).1.kind == r.kind
    ensures Past(r.phase) ==> Past(Statement(t, r).1.phase)
  {}

  ghost predicate SoundOn(w: World, x: Id, q: ProposalId) { On(w, x, q) ==> Sound(w.calls[x]) }

  lemma {:induction false} RunSound(moves: seq<Move>, n: nat, x: Id, q: ProposalId)
    requires n <= |moves|
    ensures SoundOn(WorldAt(moves, n), x, q)
  {
    if n == 0 {
      assert WorldAt(moves, 0).calls == map[];
    } else {
      var w := WorldAt(moves, n - 1);
      RunSound(moves, n - 1, x, q);
      if On(w, x, q) {
        StatementSound(w.tables, w.calls[x]);
      }
    }
  }

  lemma KindStays(w: World, m: Move, z: Id, q: ProposalId, kind: Kind)
    requires OfKind(w, z, q, kind) && SoundOn(w, z, q)
    ensures OfKind(Moved(w, m), z, q, kind) && (Past(w.calls[z].phase) ==> Past(Moved(w, m).calls[z].phase))
  {
    StatementSound(w.tables, w.calls[z]);
  }

  /** Only a read gives a call its kind. */
  lemma KindGained(w: World, m: Move, z: Id, q: ProposalId, kind: Kind)
    requires OfKind(Moved(w, m), z, q, kind) && !OfKind(w, z, q, kind) && SoundOn(w, z, q)
    ensures m == Turn(z) && On(w, z, q) && w.calls[z].phase.Fresh? && w.calls[z].kind.None?
    ensures Changing(Look(w.tables, w.calls[z].call).0) && Look(w.tables, w.calls[z].call).1 == Some(kind)
  {
    if On(w, z, q) {
      StatementSound(w.tables, w.calls[z]);
    }
  }

  // ---- how the tables stand for a proposal with at most one first and one late call ----

  /** o is the only call of its kind on q, if there is one. */
  ghost predicate Only(w: World, q: ProposalId, kind: Kind, o: Option<Id>) {
    forall z: Id :: OfKind(w, z, q, kind) <==> o == Some(z)
  }

  function RunningOf(w: World, o: Option<Id>): Option<Running> {
    if o.Some? && o.value in w.calls then Some(w.calls[o.value]) else None
  }

  /** The first of two memories ended in favour of the second, the pointer still on the first. */
  ghost predicate Replaced(t: Tables, p: Proposal, ids: seq<MemoryId>) {
    && |ids| == 2 && p.memory == Some(ids[0]) && !ValidNow(t, ids[0]) && ValidNow(t, ids[1])
    && ids[0] < |t.memories| && t.memories[ids[0]].invalidatedBy == Some(ids[1])
  }

  /** The first call is done; l is the late one. */
  ghost predicate LateStands(t: Tables, p: Proposal, ids: seq<MemoryId>, l: Option<Running>) {
    if l.None? then |ids| == 1 && p.memory == Some(ids[0]) && ValidNow(t, ids[0]) && (Accepting(p.status) || p.status.Rejected?)
    else
      match l.value.phase
      case Inserting(_, _, late) =>
        |ids| == 1 && p.memory == late == Some(ids[0]) && ValidNow(t, ids[0]) && (Accepting(p.status) || p.status.Rejected?)
      case Ending(earlier, later) =>
        && ids == [earlier, later] && p.memory == Some(earlier) && ValidNow(t, earlier) && ValidNow(t, later)
        && earlier < later && (Accepting(p.status) || p.status.Rejected?)
      case Marking(_, _) => Replaced(t, p, ids) && (Accepting(p.status) || p.status.Rejected?)
      case _ => Past(l.value.phase) && Replaced(t, p, ids) && (p.status.Superseded? || p.status.Rejected?)
  }

  /** f is the first call, l the late one. Denials show in the status only. */
  ghost predicate StandsAs(t: Tables, q: ProposalId, f: Option<Running>, l: Option<Running>) {
    var ids := IdsOf(t, q);
    if q !in t.proposals then f.None? && l.None? && ids == []
    else
      var p := t.proposals[q];
      if f.Some? && Past(f.value.phase) then LateStands(t, p, ids, l)
      else
        && l.None? && p.memory.None? && (p.status.Pending? || p.status.Rejected?)
        && if f.Some? && f.value.phase.Marking?
           then |ids| == 1 && f.value.phase.memory == Some(ids[0]) && ValidNow(t, ids[0])
           else ids == [] && (f.Some? ==> f.value.phase.Inserting?)
  }

  lemma AlikeStands(t: Tables, t': Tables, q: ProposalId, f: Option<Running>, l: Option<Running>)
    requires Alike(t, t', q) && StandsAs(t, q, f, l)
    ensures StandsAs(t', q, f, l)
  {
    var ids := IdsOf(t, q);
    if |ids| > 0 {
      IdsAreOwned(t, q, 0);
    }
    if |ids| > 1 {
      IdsAreOwned(t, q, 1);
    }
  }

  lemma PastStands(t: Tables, q: ProposalId, f: Option<Running>, l: Option<Running>, f': Option<Running>, l': Option<Running>)
    requires StandsAs(t, q, f, l)
    requires f' == f || (f.Some? && f'.Some? && Past(f.value.phase) && Past(f'.value.phase))
    requires l' == l || (l.Some? && l'.Some? && Past(l.value.phase) && Past(l'.value.phase))
    ensures StandsAs(t, q, f', l')
  {}

  lemma FirstStatement(t: Tables, q: ProposalId, r: Running, l: Option<Running>)
    requires StandsAs(t, q, Some(r), l) && r.call.pid == q && r.kind == Some(First) && Sound(r) && Changing(r.phase)
    ensures StandsAs(Statement(t, r).0, q, Some(Statement(t, r).1), l)
  {
    if r.phase.Inserting? {
      InsertedIds(t, Memory(q, r.call.tenant, r.phase.content, r.phase.review, None, None), q);
    }
  }

  lemma LateStatement(t: Tables, q: ProposalId, f: Option<Running>, r: Running)
    requires StandsAs(t, q, f, Some(r)) && r.call.pid == q && r.kind == Some(Late) && Sound(r) && Changing(r.phase)
    ensures StandsAs(Statement(t, r).0, q, f, Some(Statement(t, r).1))
  {
    if r.phase.Inserting? {
      InsertedIds(t, Memory(q, r.call.tenant, r.phase.content, r.phase.review, None, None), q);
      IdsRise(t.memories, q, |t.memories|);
    } else if r.phase.Ending? {
      EndedIds(t, r.phase.earlier, r.phase.later, r.call.now, q);
      IdsAreOwned(t, q, 0);
    }
  }

  lemma DenialStatement(t: Tables, q: ProposalId, f: Option<Running>, l: Option<Running>, r: Running)
    requires StandsAs(t, q, f, l) && r.call.pid == q && r.kind == Some(Denial) && Sound(r) && Changing(r.phase)
    ensures StandsAs(Statement(t, r).0, q, f, l)
  {}

  lemma FirstLook(t: Tables, q: ProposalId, l: Option<Running>, r: Running)
    requires StandsAs(t, q, None, l) && r.phase.Fresh? && r.call.pid == q && Statement(t, r).1.kind == Some(First)
    ensures StandsAs(t, q, Some(Statement(t, r).1), l)
  {}

  lemma LateLook(t: Tables, q: ProposalId, f: Option<Running>, r: Running)
    requires StandsAs(t, q, f, None) && r.phase.Fresh? && r.call.pid == q && Statement(t, r).1.kind == Some(Late)
    ensures StandsAs(t, q, f, Some(Statement(t, r).1))
  {}

  ghost predicate Standing(w: World, q: ProposalId, f: Option<Id>, l: Option<Id>) {
    && Only(w, q, First, f) && Only(w, q, Late, l)
    && StandsAs(w.tables, q, RunningOf(w, f), RunningOf(w, l))
  }

  /** The calls of a kind after a move are those before it, or a call that has just read is added. */
  lemma OnlyBefore(w: World, m: Move, q: ProposalId, kind: Kind, o': Option<Id>) returns (o: Option<Id>)
    requires Only(Moved(w, m), q, kind, o') && forall z :: SoundOn(w, z, q)
    ensures Only(w, q, kind, o) && (o == o' || (o.None? && m == Turn(o'.value)))
  {
    o := if o'.Some? && OfKind(w, o'.value, q, kind) then o' else None;
    forall z: Id | OfKind(w, z, q, kind) ensures o == Some(z) {
      assert SoundOn(w, z, q);
      KindStays(w, m, z, q, kind);
    }
    if o != o' {
      assert SoundOn(w, o'.value, q);
      KindGained(w, m, o'.value, q, kind);
    }
  }

  /** The read of a call. */
  lemma LookTurn(w: World, x: Id, q: ProposalId, f: Option<Id>, l: Option<Id>, f': Option<Id>, l': Option<Id>)
    requires On(w, x, q) && w.calls[x].phase.Fresh? && SoundOn(w, x, q) && Standing(w, q, f, l)
    requires Only(Moved(w, Turn(x)), q, First, f') && Only(Moved(w, Turn(x)), q, Late, l')
    requires (f == f' || (f.None? && f' == Some(x))) && (l == l' || (l.None? && l' == Some(x)))
    ensures Standing(Moved(w, Turn(x)), q, f', l')
  {
    var w', r := Moved(w, Turn(x)), w.calls[x];
    assert w'.tables == w.tables && r.kind.None? && !OfKind(w, x, q, First) && !OfKind(w, x, q, Late);
    assert f != Some(x) && l != Some(x);
    if f != f' {
      assert OfKind(w', x, q, First) && !OfKind(w', x, q, Late);
      FirstLook(w.tables, q, RunningOf(w, l), r);
    } else if l != l' {
      assert OfKind(w', x, q, Late);
      LateLook(w.tables, q, RunningOf(w, f), r);
    }
  }

  /** Any other statement of a call on q. */
  lemma OwnTurn(w: World, x: Id, q: ProposalId, f: Option<Id>, l: Option<Id>)
    requires On(w, x, q) && !w.calls[x].phase.Fresh? && SoundOn(w, x, q) && Standing(w, q, f, l) && Aimed(w, x, q)
    requires Only(Moved(w, Turn(x)), q, First, f) && Only(Moved(w, Turn(x)), q, Late, l)
    ensures Standing(Moved(w, Turn(x)), q, f, l)
  {
    var t, w', r := w.tables, Moved(w, Turn(x)), w.calls[x];
    StatementSound(t, r);
    if !Changing(r.phase) {
      StatementAlike(t, r, q);
      AlikeStands(t, w'.tables, q, RunningOf(w, f), RunningOf(w, l));
      PastStands(w'.tables, q, RunningOf(w, f), RunningOf(w, l), RunningOf(w', f), RunningOf(w', l));
    } else if r.kind == Some(First) {
      assert OfKind(w, x, q, First) && !OfKind(w, x, q, Late);
      FirstStatement(t, q, r, RunningOf(w, l));
    } else if r.kind == Some(Late) {
      assert OfKind(w, x, q, Late) && !OfKind(w, x, q, First);
      LateStatement(t, q, RunningOf(w, f), r);
    } else {
      assert !OfKind(w, x, q, Late) && !OfKind(w, x, q, First);
      DenialStatement(t, q, RunningOf(w, f), RunningOf(w, l), r);
    }
  }

  /** A move that is no statement of a call on q. */
  lemma OtherMove(w: World, m: Move, q: ProposalId, f: Option<Id>, l: Option<Id>)
    requires Standing(w, q, f, l) && (m.Turn? ==> !On(w, m.id, q) && Aimed(w, m.id, q))
    ensures Standing(Moved(w, m), q, f, l)
  {
    var w' := Moved(w, m);
    forall z, kind ensures OfKind(w', z, q, kind) <==> OfKind(w, z, q, kind) {}
    assert OfKind(w, if f.Some? then f.value else 0, q, First) <==> f.Some? && f.value == if f.Some? then f.value else 0;
    if m.Turn? && m.id in w.calls {
      StatementAlike(w.tables, w.calls[m.id], q);
      AlikeStands(w.tables, w'.tables, q, RunningOf(w, f), RunningOf(w, l));
    } else if m.Submit? && m.pid != q {
      AlikeStands(w.tables, w'.tables, q, RunningOf(w, f), RunningOf(w, l));
    }
  }

  lemma MoveStands(w: World, m: Move, q: ProposalId, f: Option<Id>, l: Option<Id>, f': Option<Id>, l': Option<Id>)
    requires Standing(w, q, f, l) && (m.Turn? ==> SoundOn(w, m.id, q) && Aimed(w, m.id, q))
    requires Only(Moved(w, m), q, First, f') && Only(Moved(w, m), q, Late, l')
    requires (f == f' || (f.None? && m == Turn(f'.value))) && (l == l' || (l.None? && m == Turn(l'.value)))
    ensures Standing(Moved(w, m), q, f', l')
  {
    if m.Turn? && On(w, m.id, q) {
      if w.calls[m.id].phase.Fresh? {
        LookTurn(w, m.id, q, f, l, f', l');
      } else {
        NoNews(w, m.id, q, First, f, f');
        NoNews(w, m.id, q, Late, l, l');
        OwnTurn(w, m.id, q, f, l);
      }
    } else {
      OtherMove(w, m, q, f, l);
      assert OfKind(Moved(w, m), if f'.Some? then f'.value else 0, q, First) <==> f' == Some(if f'.Some? then f'.value else 0);
      assert OfKind(Moved(w, m), if l'.Some? then l'.value else 0, q, Late) <==> l' == Some(if l'.Some? then l'.value else 0);
    }
  }

  lemma NoNews(w: World, x: Id, q: ProposalId, kind: Kind, o: Option<Id>, o': Option<Id>)
    requires On(w, x, q) && !w.calls[x].phase.Fresh? && SoundOn(w, x, q)
    requires Only(w, q, kind, o) && Only(Moved(w, Turn(x)), q, kind, o') && (o == o' || (o.None? && o' == Some(x)))
    ensures o == o'
  {
    if o != o' {
      assert OfKind(Moved(w, Turn(x)), x, q, kind) && !OfKind(w, x, q, kind);
      KindGained(w, Turn(x), x, q, kind);
    }
  }

  /** Whatever clashes and denials there were: with one first and one late call at most, the tables stand as
      these two left them. */
  lemma {:induction false} RunStands(moves: seq<Move>, n: nat, q: ProposalId, f: Option<Id>, l: Option<Id>)
    requires n <= |moves| && Only(WorldAt(moves, n), q, First, f) && Only(WorldAt(moves, n), q, Late, l)
    ensures Standing(WorldAt(moves, n), q, f, l)
  {
    if n == 0 {
      assert WorldAt(moves, 0) == World(Tables(map[], [], []), map[]);
      assert IdsOf(Tables(map[], [], []), q) == [];
    } else {
      var w, m := WorldAt(moves, n - 1), moves[n - 1];
      forall z ensures SoundOn(w, z, q) {
        RunSound(moves, n - 1, z, q);
      }
      var f0 := OnlyBefore(w, m, q, First, f);
      var l0 := OnlyBefore(w, m, q, Late, l);
      RunStands(moves, n - 1, q, f0, l0);
      if m.Turn? {
        RunAimed(moves, n - 1, m.id, q);
        assert SoundOn(w, m.id, q);
      }
      MoveStands(w, m, q, f0, l0, f, l);
    }
  }

  // ---- the last mark ----

  /** The last status update of q among the first n moves is a denial's. */
  ghost predicate DenialLast(moves: seq<Move>, n: nat, q: ProposalId)
    requires n <= |moves|
  {
    n != 0
    && var w, m := WorldAt(moves, n - 1), moves[n - 1];
       if m.Turn? && On(w, m.id, q) && w.calls[m.id].phase.Marking? then w.calls[m.id].kind == Some(Denial)
       else DenialLast(moves, n - 1, q)
  }

  ghost predicate RejectedNow(t: Tables, q: ProposalId) { q in t.proposals && t.proposals[q].status.Rejected? }

  /** Statements of calls on q, as far as q's status goes. */
  lemma StatusStatement(t: Tables, r: Running, q: ProposalId)
    requires Sound(r)
    ensures var (t', r') := Statement(t, r);
            && (q in t'.proposals <==> q in t.proposals)
            && (q in t.proposals ==> t'.proposals[q].status == if r.phase.Marking? && r.call.pid == q then r.phase.status else t.proposals[q].status)
            && (r.kind.None? && r'.kind.Some? && r.call.pid == q ==>
                  && q in t.proposals
                  && (r'.kind == Some(Late) ==> Accepting(t.proposals[q].status))
                  && (r'.kind != Some(Late) ==> t.proposals[q].status.Pending?))
  {}

  ghost predicate SomePast(w: World, q: ProposalId, kind: Kind) {
    exists z :: OfKind(w, z, q, kind) && Past(w.calls[z].phase)
  }

  ghost predicate SomeOf(w: World, q: ProposalId, kind: Kind) { exists z :: OfKind(w, z, q, kind) }

  /** What q's status says of the calls made, and the calls of the status. */
  ghost predicate Explained(w: World, q: ProposalId) {
    && (q in w.tables.proposals ==>
          var s := w.tables.proposals[q].status;
          && (Accepting(s) ==> SomePast(w, q, First))
          && (s.Superseded? ==> SomePast(w, q, Late)))
    && (SomeOf(w, q, Late) ==> SomePast(w, q, First) && q in w.tables.proposals && !w.tables.proposals[q].status.Pending?)
    && (forall z :: On(w, z, q) && w.calls[z].kind.Some? ==> q in w.tables.proposals)
  }

  lemma PastStays(w: World, m: Move, q: ProposalId, kind: Kind)
    requires SomePast(w, q, kind) && forall z :: SoundOn(w, z, q)
    ensures SomePast(Moved(w, m), q, kind)
  {
    var z :| OfKind(w, z, q, kind) && Past(w.calls[z].phase);
    assert SoundOn(w, z, q);
    KindStays(w, m, z, q, kind);
  }

  lemma ExplainedOwn(w: World, x: Id, q: ProposalId)
    requires Explained(w, q) && On(w, x, q) && forall z :: SoundOn(w, z, q)
    ensures Explained(Moved(w, Turn(x)), q)
  {
    var w', r := Moved(w, Turn(x)), w.calls[x];
    assert SoundOn(w, x, q);
    StatusStatement(w.tables, r, q);
    StatementSound(w.tables, r);
    if SomePast(w, q, First) {
      PastStays(w, Turn(x), q, First);
    }
    if SomePast(w, q, Late) {
      PastStays(w, Turn(x), q, Late);
    }
    if r.phase.Marking? {
      assert OfKind(w', x, q, r.kind.value) && Past(w'.calls[x].phase);
    }
    if z :| OfKind(w', z, q, Late) {
      assert OfKind(w, z, q, Late) || (z == x && r.kind.None?);
    }
  }

  lemma ExplainedElsewhere(w: World, m: Move, q: ProposalId)
    requires Explained(w, q) && (m.Turn? ==> !On(w, m.id, q)) && forall z :: SoundOn(w, z, q)
    ensures Explained(Moved(w, m), q)
  {
    var w' := Moved(w, m);
    if SomePast(w, q, First) {
      PastStays(w, m, q, First);
    }
    if SomePast(w, q, Late) {
      PastStays(w, m, q, Late);
    }
    forall z, kind | OfKind(w', z, q, kind) ensures OfKind(w, z, q, kind) {}
  }

  lemma {:induction false} RunExplained(moves: seq<Move>, n: nat, q: ProposalId)
    requires n <= |moves|
    ensures Explained(WorldAt(moves, n), q)
  {
    if n == 0 {
      assert WorldAt(moves, 0) == World(Tables(map[], [], []), map[]);
    } else {
      var w, m := WorldAt(moves, n - 1), moves[n - 1];
      RunExplained(moves, n - 1, q);
      forall z ensures SoundOn(w, z, q) {
        RunSound(moves, n - 1, z, q);
      }
      if m.Turn? && On(w, m.id, q) {
        ExplainedOwn(w, m.id, q);
      } else {
        ExplainedElsewhere(w, m, q);
      }
    }
  }

  lemma {:induction false} RejectedIffDenialLast(moves: seq<Move>, n: nat, q: ProposalId)
    requires n <= |moves|
    ensures RejectedNow(WorldAt(moves, n).tables, q) <==> DenialLast(moves, n, q)
  {
    if n == 0 {
      assert WorldAt(moves, 0) == World(Tables(map[], [], []), map[]);
    } else {
      var w, m := WorldAt(moves, n - 1), moves[n - 1];
      RejectedIffDenialLast(moves, n - 1, q);
      if m.Turn? && m.id in w.calls {
        RunSound(moves, n - 1, m.id, w.calls[m.id].call.pid);
        RunExplained(moves, n - 1, q);
        StatusStatement(w.tables, w.calls[m.id], q);
      }
    }
  }

  // ---- counting memories ----

  /** Call x has written its memory for q. */
  predicate Wrote(w: World, x: Id, q: ProposalId) {
    (OfKind(w, x, q, First) || OfKind(w, x, q, Late)) && !w.calls[x].phase.Inserting?
  }

  function Writers(w: World, q: ProposalId): set<Id> { set x | x in w.calls && Wrote(w, x, q) }

  lemma StatementCounts(t: Tables, r: Running, q: ProposalId)
    ensures |IdsOf(Statement(t, r).0, q)| == |IdsOf(t, q)| + if r.phase.Inserting? && r.call.pid == q then 1 else 0
  {
    match r.phase
    case Inserting(content, review, _) => InsertedIds(t, Memory(r.call.pid, r.call.tenant, content, review, None, None), q);
    case Ending(earlier, later) => EndedIds(t, earlier, later, r.call.now, q);
    case _ =>
  }

  lemma WritersTurn(w: World, x: Id, q: ProposalId)
    requires x in w.calls && SoundOn(w, x, q)
    ensures Writers(Moved(w, Turn(x)), q)
         == if On(w, x, q) && w.calls[x].phase.Inserting? then Writers(w, q) + {x} else Writers(w, q)
    ensures On(w, x, q) && w.calls[x].phase.Inserting? ==> x !in Writers(w, q)
  {
    var w' := Moved(w, Turn(x));
    forall y ensures Wrote(w', y, q) <==> Wrote(w, y, q) || (y == x && On(w, x, q) && w.calls[x].phase.Inserting?) {
      if y == x && On(w, x, q) {
        StatementSound(w.tables, w.calls[x]);
      }
    }
  }

  /** Each writer wrote one memory. */
  lemma {:induction false} RunCounts(moves: seq<Move>, n: nat, q: ProposalId)
    requires n <= |moves|
    ensures |IdsOf(WorldAt(moves, n).tables, q)| == |Writers(WorldAt(moves, n), q)|
  {
    if n == 0 {
      assert WorldAt(moves, 0) == World(Tables(map[], [], []), map[]);
      assert Writers(WorldAt(moves, 0), q) == {};
    } else {
      var w, m := WorldAt(moves, n - 1), moves[n - 1];
      RunCounts(moves, n - 1, q);
      if m.Turn? && m.id in w.calls {
        RunSound(moves, n - 1, m.id, q);
        WritersTurn(w, m.id, q);
        StatementCounts(w.tables, w.calls[m.id], q);
      } else {
        CountsElsewhere(w, m, q);
      }
    }
  }

  lemma CountsElsewhere(w: World, m: Move, q: ProposalId)
    requires m.Turn? ==> m.id !in w.calls
    ensures Writers(Moved(w, m), q) == Writers(w, q) && IdsOf(Moved(w, m).tables, q) == IdsOf(w.tables, q)
  {
    forall y ensures Wrote(Moved(w, m), y, q) <==> Wrote(w, y, q) {}
  }

  lemma {:induction false} Subset(small: set<Id>, large: set<Id>)
    requires small <= large
    ensures |small| <= |large|
  {
    if small == {} {
      assert |small| == 0;
    } else {
      var x :| x in small;
      Subset(small - {x}, large - {x});
    }
  }

  // ---- when a proposal is settled ----

  /** No two calls set out to do the same for q. */
  ghost predicate Single(w: World, q: ProposalId, kind: Kind) {
    forall a, b :: OfKind(w, a, q, kind) && OfKind(w, b, q, kind) ==> a == b
  }

  lemma OnlyOf(w: World, q: ProposalId, kind: Kind) returns (o: Option<Id>)
    requires Single(w, q, kind)
    ensures Only(w, q, kind, o) && (o.Some? <==> SomeOf(w, q, kind))
  {
    if z :| OfKind(w, z, q, kind) {
      o := Some(z);
    } else {
      o := None;
    }
  }

  /** A call that is not about to change q is past doing so, if it ever set out to. */
  lemma QuietIsPast(w: World, q: ProposalId, z: Id, kind: Kind)
    requires Quiet(w, q) && SoundOn(w, z, q) && OfKind(w, z, q, kind)
    ensures Past(w.calls[z].phase)
  {
    assert !Mutating(w, z, q);
  }

  lemma StandingSettles(w: World, q: ProposalId, f: Option<Id>, l: Option<Id>)
    requires Standing(w, q, f, l) && Quiet(w, q) && forall z :: SoundOn(w, z, q)
    requires f.Some? ==> !RejectedNow(w.tables, q)
    ensures Settled(w.tables, q)
  {
    if f.Some? {
      assert SoundOn(w, f.value, q) && OfKind(w, f.value, q, First);
      QuietIsPast(w, q, f.value, First);
    }
    if l.Some? {
      assert SoundOn(w, l.value, q) && OfKind(w, l.value, q, Late);
      QuietIsPast(w, q, l.value, Late);
    }
  }

  /** At a quiet moment these calls have all written. */
  lemma QuietWriters(w: World, q: ProposalId, some: set<Id>)
    requires Quiet(w, q) && forall z :: SoundOn(w, z, q)
    requires forall z :: z in some ==> OfKind(w, z, q, First) || OfKind(w, z, q, Late)
    ensures |some| <= |Writers(w, q)|
  {
    forall z | z in some ensures z in Writers(w, q) {
      assert SoundOn(w, z, q) && !Mutating(w, z, q);
    }
    Subset(some, Writers(w, q));
  }

  lemma SettledIsSingle(w: World, q: ProposalId)
    requires Settled(w.tables, q) && Quiet(w, q) && Explained(w, q) && |IdsOf(w.tables, q)| == |Writers(w, q)|
    requires forall z :: SoundOn(w, z, q)
    ensures Single(w, q, First) && Single(w, q, Late) && (SomeOf(w, q, First) ==> !RejectedNow(w.tables, q))
  {
    forall a, b | OfKind(w, a, q, First) && OfKind(w, b, q, First) ensures a == b {
      QuietWriters(w, q, {a, b});
      if a != b {
        var z :| OfKind(w, z, q, Late);
        QuietWriters(w, q, {a, b, z});
      }
    }
    forall a, b | OfKind(w, a, q, Late) && OfKind(w, b, q, Late) ensures a == b {
      assert SomeOf(w, q, Late);
      var z :| OfKind(w, z, q, First);
      QuietWriters(w, q, {a, b, z});
    }
    if z :| OfKind(w, z, q, First) {
      QuietWriters(w, q, {z});
    }
  }

  /** Statement by statement, whoever approves, edits, denies or times out: at any moment when no call is
      about to change a proposal, its status, pointer and memories fit together if and only if at most one call
      set out to accept it and at most one to supersede it, and, where one did, the last status update is no
      denial's. */
  lemma SettledIff(moves: seq<Move>, n: nat, q: ProposalId)
    requires n <= |moves| && Quiet(WorldAt(moves, n), q)
    ensures var w := WorldAt(moves, n);
            && (Settled(w.tables, q)
                <==> Single(w, q, First) && Single(w, q, Late) && (SomeOf(w, q, First) ==> !DenialLast(moves, n, q)))
  {
    var w := WorldAt(moves, n);
    RejectedIffDenialLast(moves, n, q);
    forall z ensures SoundOn(w, z, q) {
      RunSound(moves, n, z, q);
    }
    if Settled(w.tables, q) {
      RunExplained(moves, n, q);
      RunCounts(moves, n, q);
      SettledIsSingle(w, q);
    } else if Single(w, q, First) && Single(w, q, Late) && (SomeOf(w, q, First) ==> !DenialLast(moves, n, q)) {
      var f := OnlyOf(w, q, First);
      var l := OnlyOf(w, q, Late);
      RunStands(moves, n, q, f, l);
      StandingSettles(w, q, f, l);
    }
  }

  // ---- without clashes ----

  /** No calls have clashed on q: there is one first and one late call at most, at most one call is about to
      change q, and a denial only while nobody set out to accept. */
  ghost predicate SteadyAs(w: World, q: ProposalId, f: Option<Id>, l: Option<Id>) {
    && Standing(w, q, f, l)
    && (forall x, y :: Mutating(w, x, q) && Mutating(w, y, q) ==> x == y)
    && (f.Some? ==> !RejectedNow(w.tables, q) && forall x :: Mutating(w, x, q) ==> w.calls[x].kind != Some(Denial))
  }

  /** A read that clashes with nobody finds the calls of its kind still missing. */
  lemma NewKind(w: World, x: Id, q: ProposalId, f: Option<Id>, l: Option<Id>)
    requires SteadyAs(w, q, f, l) && Quiet(w, q) && On(w, x, q) && w.calls[x].phase.Fresh? && forall z :: SoundOn(w, z, q)
    ensures var kind := Look(w.tables, w.calls[x].call).1;
            && (kind == Some(First) || kind == Some(Denial) ==> f.None?)
            && (kind == Some(Late) ==> l.None?)
  {
    if f.Some? {
      assert OfKind(w, f.value, q, First) && SoundOn(w, f.value, q);
      QuietIsPast(w, q, f.value, First);
    }
    if l.Some? {
      assert OfKind(w, l.value, q, Late) && SoundOn(w, l.value, q);
      QuietIsPast(w, q, l.value, Late);
    }
  }

  /** o' is the call of that kind after the turn. */
  lemma OnlyAfter(w: World, m: Move, q: ProposalId, kind: Kind, o: Option<Id>) returns (o': Option<Id>)
    requires Only(w, q, kind, o) && forall z :: SoundOn(w, z, q)
    requires m.Turn? && On(w, m.id, q) && w.calls[m.id].phase.Fresh? && Look(w.tables, w.calls[m.id].call).1 == Some(kind) ==> o.None?
    ensures Only(Moved(w, m), q, kind, o') && (o == o' || (o.None? && m == Turn(o'.value)))
  {
    var w' := Moved(w, m);
    o' := if m.Turn? && OfKind(w', m.id, q, kind) then Some(m.id) else o;
    forall z: Id ensures OfKind(w', z, q, kind) <==> o' == Some(z) {
      assert SoundOn(w, z, q);
      if OfKind(w, z, q, kind) {
        KindStays(w, m, z, q, kind);
      } else if OfKind(w', z, q, kind) {
        KindGained(w, m, z, q, kind);
      }
    }
  }

  lemma SteadyMove(w: World, m: Move, q: ProposalId, f: Option<Id>, l: Option<Id>) returns (f': Option<Id>, l': Option<Id>)
    requires SteadyAs(w, q, f, l) && !ClashAt(w, m, q) && (m.Turn? ==> Aimed(w, m.id, q)) && forall z :: SoundOn(w, z, q)
    ensures SteadyAs(Moved(w, m), q, f', l')
  {
    var w' := Moved(w, m);
    var entering := m.Turn? && On(w, m.id, q) && w.calls[m.id].phase.Fresh? && Changing(Look(w.tables, w.calls[m.id].call).0);
    if entering {
      NewKind(w, m.id, q, f, l);
    }
    f' := OnlyAfter(w, m, q, First, f);
    l' := OnlyAfter(w, m, q, Late, l);
    if m.Turn? {
      assert SoundOn(w, m.id, q);
    }
    MoveStands(w, m, q, f, l, f', l');
    forall x | Mutating(w', x, q) ensures Mutating(w, x, q) || (entering && x == m.id) {}
    SteadyStatus(w, m, q, f, f');
  }

  lemma SteadyStatus(w: World, m: Move, q: ProposalId, f: Option<Id>, f': Option<Id>)
    requires (forall z :: SoundOn(w, z, q)) && Only(w, q, First, f) && Only(Moved(w, m), q, First, f')
    requires f.Some? ==> !RejectedNow(w.tables, q) && forall x :: Mutating(w, x, q) ==> w.calls[x].kind != Some(Denial)
    requires f == f' || (f.None? && m == Turn(f'.value) && Quiet(w, q))
    requires m.Turn? && On(w, m.id, q) && w.calls[m.id].phase.Fresh? && Look(w.tables, w.calls[m.id].call).1 == Some(Denial) ==> f.None?
    ensures f'.Some? ==>
              !RejectedNow(Moved(w, m).tables, q) && forall x :: Mutating(Moved(w, m), x, q) ==> Moved(w, m).calls[x].kind != Some(Denial)
  {
    var w' := Moved(w, m);
    if f'.Some? {
      assert OfKind(w', f'.value, q, First) && SoundOn(w, f'.value, q);
      if f != f' {
        KindGained(w, m, f'.value, q, First);
      }
      if m.Turn? && On(w, m.id, q) {
        assert SoundOn(w, m.id, q);
        StatusStatement(w.tables, w.calls[m.id], q);
        assert w.calls[m.id].phase.Marking? ==> Mutating(w, m.id, q);
      }
      forall x | Mutating(w', x, q) && !Mutating(w, x, q) ensures m == Turn(x) && On(w, x, q) && w.calls[x].phase.Fresh? {
        assert SoundOn(w, x, q);
        if On(w, x, q) {
          StatementSound(w.tables, w.calls[x]);
        }
      }
    }
  }

  /** As long as no two calls clash on a proposal, at most one is about to change it, and its status, pointer
      and memories fit together whenever none is, whatever else is going on, statement by statement. */
  lemma SteadyUntilClash(moves: seq<Move>, n: nat, q: ProposalId)
    requires n <= |moves| && !Clashed(moves, n, q)
    ensures var w := WorldAt(moves, n);
            && (forall x, y :: Mutating(w, x, q) && Mutating(w, y, q) ==> x == y)
            && (Quiet(w, q) ==> Settled(w.tables, q))
  {
    var f, l := RunSteady(moves, n, q);
    forall z ensures SoundOn(WorldAt(moves, n), z, q) {
      RunSound(moves, n, z, q);
    }
    if Quiet(WorldAt(moves, n), q) {
      StandingSettles(WorldAt(moves, n), q, f, l);
    }
  }

  lemma {:induction false} RunSteady(moves: seq<Move>, n: nat, q: ProposalId) returns (f: Option<Id>, l: Option<Id>)
    requires n <= |moves| && !Clashed(moves, n, q)
    ensures SteadyAs(WorldAt(moves, n), q, f, l)
  {
    if n == 0 {
      f, l := None, None;
      assert WorldAt(moves, 0) == World(Tables(map[], [], []), map[]);
      assert IdsOf(Tables(map[], [], []), q) == [];
    } else {
      var w, m := WorldAt(moves, n - 1), moves[n - 1];
      f, l := RunSteady(moves, n - 1, q);
      forall z ensures SoundOn(w, z, q) {
        RunSound(moves, n - 1, z, q);
      }
      if m.Turn? {
        RunAimed(moves, n - 1, m.id, q);
      }
      f, l := SteadyMove(w, m, q, f, l);
    }
  }

  // ---- without denials: settled if and only if no clash ----

  /** Nobody calls to deny q. */
  ghost predicate Undenied(moves: seq<Move>, q: ProposalId) {
    forall i :: 0 <= i < |moves| && moves[i].Begin? && moves[i].call.pid == q ==> !moves[i].call.action.decision.Deny?
  }

  lemma {:induction false} NoDenial(moves: seq<Move>, n: nat, q: ProposalId, x: Id)
    requires n <= |moves| && Undenied(moves, q)
    ensures On(WorldAt(moves, n), x, q) ==> !WorldAt(moves, n).calls[x].call.action.decision.Deny?
  {
    if n == 0 {
      assert WorldAt(moves, 0).calls == map[];
    } else {
      NoDenial(moves, n - 1, q, x);
    }
  }

  /** Two calls set out to write the first memory of q, or two to supersede it. */
  ghost predicate Doubled(w: World, q: ProposalId) { !Single(w, q, First) || !Single(w, q, Late) }

  predicate Accepts(k: Option<Kind>) { k == Some(First) || k == Some(Late) }

  lemma ClashDoubles(w: World, m: Move, q: ProposalId)
    requires ClashAt(w, m, q) && Explained(w, q) && forall z :: SoundOn(w, z, q)
    requires forall z :: On(w, z, q) ==> !w.calls[z].call.action.decision.Deny?
    ensures Doubled(Moved(w, m), q)
  {
    var x, w' := m.id, Moved(w, m);
    var y :| Mutating(w, y, q);
    assert SoundOn(w, x, q) && SoundOn(w, y, q);
    StatementSound(w.tables, w.calls[x]);
    StatusStatement(w.tables, w.calls[x], q);
    var kind, other := w'.calls[x].kind.value, w.calls[y].kind.value;
    assert Accepts(Some(kind)) && Accepts(w.calls[y].kind);
    assert OfKind(w', x, q, kind) && OfKind(w, y, q, other) && OfKind(w', y, q, other);
    if kind == Late && other == First {
      var z :| OfKind(w, z, q, First) && Past(w.calls[z].phase);
      assert OfKind(w', z, q, First) && z != y;
    } else {
      assert other == Late ==> SomeOf(w, q, Late);
      assert kind == other;
    }
  }

  lemma {:induction false} ClashedDoubles(moves: seq<Move>, n: nat, q: ProposalId)
    requires n <= |moves| && Undenied(moves, q) && Clashed(moves, n, q)
    ensures Doubled(WorldAt(moves, n), q)
  {
    var w, m := WorldAt(moves, n - 1), moves[n - 1];
    forall z ensures SoundOn(w, z, q) {
      RunSound(moves, n - 1, z, q);
    }
    if Clashed(moves, n - 1, q) {
      ClashedDoubles(moves, n - 1, q);
      DoubledStays(w, m, q);
    } else {
      forall z ensures On(w, z, q) ==> !w.calls[z].call.action.decision.Deny? {
        NoDenial(moves, n - 1, q, z);
      }
      RunExplained(moves, n - 1, q);
      ClashDoubles(w, m, q);
    }
  }

  lemma DoubledStays(w: World, m: Move, q: ProposalId)
    requires Doubled(w, q) && forall z :: SoundOn(w, z, q)
    ensures Doubled(Moved(w, m), q)
  {
    var kind := if Single(w, q, First) then Late else First;
    var a, b :| OfKind(w, a, q, kind) && OfKind(w, b, q, kind) && a != b;
    assert SoundOn(w, a, q) && SoundOn(w, b, q);
    KindStays(w, m, a, q, kind);
    KindStays(w, m, b, q, kind);
  }

  /** On a proposal that nobody calls to deny: at any moment when no call is about to change it, it is settled
      if and only if no two calls have clashed, that is, no call read it to change it while another had read
      and not yet marked it. */
  lemma SettledIffNoClash(moves: seq<Move>, n: nat, q: ProposalId)
    requires n <= |moves| && Undenied(moves, q) && Quiet(WorldAt(moves, n), q)
    ensures Settled(WorldAt(moves, n).tables, q) <==> !Clashed(moves, n, q)
  {
    if Clashed(moves, n, q) {
      ClashedDoubles(moves, n, q);
      SettledIff(moves, n, q);
    } else {
      SteadyUntilClash(moves, n, q);
    }
  }

  // ---- two approvals at once ----

  function Approval(actor: string): Call { Call("t", 0, Action(Approve, actor, ""), 0) }

  /** A proposal, and two reviewers who both read it before either writes. */
  function Race(): seq<Move> {
    [Submit(0, "t", "c", 9), Begin(0, Approval("x")), Begin(1, Approval("y")),
     Turn(0), Turn(1), Turn(0), Turn(1), Turn(0), Turn(1)]
  }

  ghost predicate Reaches(n: nat, t: Tables, a: Phase, b: Phase, kind: Option<Kind>)
    requires n <= 9
  {
    WorldAt(Race(), n) == World(t, map[0 := Running(Approval("x"), a, kind), 1 := Running(Approval("y"), b, kind)])
  }

  lemma RaceStarts(p: Proposal)
    requires p == Proposal("t", Pending, "c", 9, None, None)
    ensures Reaches(3, Tables(map[0 := p], [], []), Fresh, Fresh, None)
  {
    assert WorldAt(Race(), 0) == World(Tables(map[], [], []), map[]);
    assert WorldAt(Race(), 1) == World(Tables(map[0 := p], [], []), map[]);
    assert WorldAt(Race(), 2) == World(Tables(map[0 := p], [], []), map[0 := Running(Approval("x"), Fresh, None)]);
  }

  lemma RaceReads(p: Proposal)
    requires p == Proposal("t", Pending, "c", 9, None, None)
    ensures Reaches(5, Tables(map[0 := p], [], []), Inserting("c", Accepted, None), Inserting("c", Accepted, None), Some(First))
  {
    var t, read := Tables(map[0 := p], [], []), Inserting("c", Accepted, None);
    RaceStarts(p);
    var w := WorldAt(Race(), 4);
    assert w == World(t, map[0 := Running(Approval("x"), read, Some(First)), 1 := Running(Approval("y"), Fresh, None)]);
  }

  lemma RaceWrites(p: Proposal, m: Memory)
    requires p == Proposal("t", Pending, "c", 9, None, None) && m == Memory(0, "t", "c", Accepted, None, None)
    ensures Reaches(7, Tables(map[0 := p], [m, m], []), Marking(Accepted, Some(0)), Marking(Accepted, Some(1)), Some(First))
  {
    var read := Inserting("c", Accepted, None);
    RaceReads(p);
    assert Reaches(6, Tables(map[0 := p], [m], []), Marking(Accepted, Some(0)), read, Some(First));
  }

  lemma RaceEnds(p: Proposal, m: Memory)
    requires p == Proposal("t", Pending, "c", 9, None, None) && m == Memory(0, "t", "c", Accepted, None, None)
    ensures Reaches(9, Tables(map[0 := p.(status := Accepted, memory := Some(1))], [m, m], []), Logging, Logging, Some(First))
  {
    RaceWrites(p, m);
    var once := Tables(map[0 := p.(status := Accepted, memory := Some(0))], [m, m], []);
    assert Reaches(8, once, Logging, Marking(Accepted, Some(1)), Some(First));
  }

  /** Two approvals that interleave leave one accepted proposal with two valid memories. */
  lemma RaceWritesTwice()
    ensures var t := WorldAt(Race(), 9).tables;
            && Quiet(WorldAt(Race(), 9), 0) && !Settled(t, 0)
            && 0 in t.proposals && t.proposals[0].status.Accepted? && |t.memories| == 2 && ValidNow(t, 0) && ValidNow(t, 1)
  {
    var p, m := Proposal("t", Pending, "c", 9, None, None), Memory(0, "t", "c", Accepted, None, None);
    var w := WorldAt(Race(), 9);
    RaceEnds(p, m);
    assert OfKind(w, 0, 0, First) && OfKind(w, 1, 0, First);
    assert Quiet(w, 0);
    SettledIff(Race(), 9, 0);
  }
}
