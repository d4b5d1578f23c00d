/** Holding several slugs at once. The awaits of the code let other tasks in between any two
    registry calls; here own call i is preceded by gap i, arbitrary calls of other holders, and a
    schedule of gaps stands for one interleaving. */
module NeighborhoodLocks {
  import opened Collections
  import opened LeaseProtocol
  import opened SqliteLocks

  /** What the others do before one of our calls, and the clock reading of that call of ours. */
  datatype Gap = Gap(calls: seq<Call>, now: int)

  ghost predicate GapAfter(g: Gap, start: int) {
    && start <= g.now
    && MonotoneClock(g.calls)
    && forall i :: 0 <= i < |g.calls| ==> start <= g.calls[i].now <= g.now
  }

  ghost predicate Clocked(schedule: seq<Gap>, start: int) {
    && (forall i :: 0 <= i < |schedule| ==> GapAfter(schedule[i], start))
    && forall i, j :: 0 <= i < j < |schedule| ==> GapAfter(schedule[j], schedule[i].now)
  }

  ghost predicate ForeignCalls(calls: seq<Call>, me: string) {
    forall i :: 0 <= i < |calls| ==> calls[i].op.holder != me
  }

  /** Holder ids are unique: nobody else calls under ours. */
  ghost predicate Foreign(schedule: seq<Gap>, me: string) {
    forall i :: 0 <= i < |schedule| ==> ForeignCalls(schedule[i].calls, me)
  }

  ghost predicate Avoids(calls: seq<Call>, slug: Slug) {
    forall i :: 0 <= i < |calls| ==> calls[i].op.slug != slug
  }

  /** The others leave this slug alone. */
  ghost predicate Quiet(schedule: seq<Gap>, slug: Slug) {
    forall i :: 0 <= i < |schedule| ==> Avoids(schedule[i].calls, slug)
  }

  // ---- one task's calls, interleaved with everybody else's ----

  function AfterGap(t: Table, g: Gap): Table { StateAt(t, g.calls, |g.calls|) }

  /** Still going, or stopped by a refusal; with the table and the records granted so far. */
  datatype Progress = Going(table: Table, records: seq<Record>) | Refused(table: Table, records: seq<Record>)

  function Turn(p: Progress, g: Gap, op: Op): Progress {
    if p.Refused? then p
    else
      var (t, o) := Step(AfterGap(p.table, g), Call(g.now, op));
      match o
      case Granted(r) => Going(t, p.records + [r])
      case Released(_) => Going(t, p.records)
      case Conflict => Refused(t, p.records)
  }

  /** After the first n of our own calls, each behind its gap, up to the first refusal. */
  function Turns(t: Table, schedule: seq<Gap>, ops: seq<Op>, n: nat): (p: Progress)
    requires n <= |ops| && n <= |schedule|
    ensures |p.records| <= n
  {
    if n == 0 then Going(t, []) else Turn(Turns(t, schedule, ops, n - 1), schedule[n - 1], ops[n - 1])
  }

  lemma {:induction false} RefusalIsFinal(t: Table, schedule: seq<Gap>, ops: seq<Op>, m: nat, n: nat)
    requires m <= n <= |ops| && n <= |schedule| && Turns(t, schedule, ops, m).Refused?
    ensures Turns(t, schedule, ops, n) == Turns(t, schedule, ops, m)
  {
    if m == n {
    } else {
      RefusalIsFinal(t, schedule, ops, m, n - 1);
    }
  }

  function AcquireOps(targets: seq<Slug>, me: string, ttl: int): seq<Op> {
    seq(|targets|, i requires 0 <= i < |targets| => TryAcquire(targets[i], me, ttl))
  }

  function RenewOps(recs: seq<Record>, ttl: int): seq<Op> {
    seq(|recs|, i requires 0 <= i < |recs| => Renew(recs[i].slug, recs[i].holder, recs[i].token, ttl))
  }

  function ReleaseOps(recs: seq<Record>): seq<Op> {
    seq(|recs|, i requires 0 <= i < |recs| => Release(recs[i].slug, recs[i].holder, recs[i].token))
  }

  /** The clock after n turns. */
  function Clock(schedule: seq<Gap>, n: nat, start: int): int
    requires n <= |schedule|
  {
    if n == 0 then start else schedule[n - 1].now
  }

  // ---- what can happen to one slug ----

  ghost predicate Owns(t: Table, r: Record) { OwnedBy(t, r.slug, r.holder, r.token) }

  /** Ours from before, or one of recs. */
  ghost predicate Explained(t0: Table, t: Table, recs: seq<Record>, slug: Slug) {
    slug in t.leases ==>
      || (slug in t0.leases && t0.leases[slug] == t.leases[slug])
      || exists r :: r in recs && r.slug == slug && Owns(t, r)
  }

  /** What may have happened to a slug since t0, when all we did was acquire recs and release: its
      fence only rose, a lease under our name is explained, and a live lease of somebody else stands
      if the others left the slug alone. */
  ghost predicate Since(t0: Table, t: Table, me: string, recs: seq<Record>, slug: Slug, quiet: bool, now: int) {
    && (slug in t.leases ==> t.leases[slug].token == FenceOf(t, slug))
    && FenceOf(t0, slug) <= FenceOf(t, slug)
    && (slug in t.leases && t.leases[slug].holder == me ==> Explained(t0, t, recs, slug))
    && (quiet && LiveAt(t0, slug, now) && t0.leases[slug].holder != me
        ==> slug in t.leases && t.leases[slug] == t0.leases[slug])
  }

  /** The record is still good, unless its time ran out. */
  ghost predicate Kept(t: Table, r: Record, now: int) {
    && r.token <= FenceOf(t, r.slug)
    && (now < r.expiresAt ==> Owns(t, r) && r.expiresAt <= t.leases[r.slug].expiresAt)
  }

  ghost predicate Retired(t: Table, r: Record) {
    r.token <= FenceOf(t, r.slug) && !Owns(t, r)
  }

  lemma {:induction false} GapOnSlug(t0: Table, t: Table, me: string, recs: seq<Record>, slug: Slug, quiet: bool, now: int, g: Gap, i: nat)
    requires Since(t0, t, me, recs, slug, quiet, now) && i <= |g.calls|
    requires forall r :: r in recs ==> r.holder == me
    requires ForeignCalls(g.calls, me) && GapAfter(g, now) && (quiet ==> Avoids(g.calls, slug))
    ensures Since(t0, StateAt(t, g.calls, i), me, recs, slug, quiet, g.now)
  {
    if i == 0 {
    } else {
      GapOnSlug(t0, t, me, recs, slug, quiet, now, g, i - 1);
      var before := StateAt(t, g.calls, i - 1);
      var after := StateAt(t, g.calls, i);
      assert g.calls[i - 1].op.holder != me;
      if slug in after.leases && after.leases[slug].holder == me {
        assert after.leases[slug] == before.leases[slug];
        if r :| r in recs && r.slug == slug && Owns(before, r) {
          assert Owns(after, r);
        }
      }
    }
  }

  lemma {:induction false} GapOnRecord(t: Table, r: Record, now: int, g: Gap, i: nat)
    requires r.token <= FenceOf(t, r.slug) && i <= |g.calls|
    requires ForeignCalls(g.calls, r.holder) && GapAfter(g, now)
    ensures var now' := if i == 0 then now else g.calls[i - 1].now;
            Kept(t, r, now) ==> Kept(StateAt(t, g.calls, i), r, now')
    ensures r.token <= FenceOf(StateAt(t, g.calls, i), r.slug)
    ensures Retired(t, r) ==> Retired(StateAt(t, g.calls, i), r)
  {
    if i == 0 {
    } else {
      GapOnRecord(t, r, now, g, i - 1);
      assert g.calls[i - 1].op.holder != r.holder;
    }
  }

  lemma OwnGrantOnSlug(t0: Table, t: Table, me: string, recs: seq<Record>, slug: Slug, quiet: bool, now: int, op: Op)
    requires Since(t0, t, me, recs, slug, quiet, now)
    requires op.TryAcquire? && op.holder == me && Step(t, Call(now, op)).1.Granted?
    ensures Since(t0, Step(t, Call(now, op)).0, me, recs + [Step(t, Call(now, op)).1.record], slug, quiet, now)
  {
    var (t', o) := Step(t, Call(now, op));
    if slug == op.slug {
      assert o.record in recs + [o.record] && Owns(t', o.record);
    } else if slug in t.leases && t.leases[slug].holder == me {
      if r :| r in recs && r.slug == slug && Owns(t, r) {
        assert r in recs + [o.record] && Owns(t', r);
      }
    }
  }

  lemma OwnReleaseOnSlug(t0: Table, t: Table, me: string, slug: Slug, quiet: bool, now: int, op: Op)
    requires Since(t0, t, me, [], slug, quiet, now)
    requires op.Release? && op.holder == me
    ensures Since(t0, Step(t, Call(now, op)).0, me, [], slug, quiet, now)
  {}

  // ---- one turn ----

  lemma AcquireTurnOnSlug(t0: Table, p: Progress, me: string, slug: Slug, quiet: bool, now: int, g: Gap, op: Op)
    requires p.Going? && Since(t0, p.table, me, p.records, slug, quiet, now)
    requires forall r :: r in p.records ==> r.holder == me
    requires ForeignCalls(g.calls, me) && GapAfter(g, now) && (quiet ==> Avoids(g.calls, slug))
    requires op.TryAcquire? && op.holder == me
    ensures var p' := Turn(p, g, op); Since(t0, p'.table, me, p'.records, slug, quiet, g.now)
  {
    GapOnSlug(t0, p.table, me, p.records, slug, quiet, now, g, |g.calls|);
    var t := AfterGap(p.table, g);
    if Step(t, Call(g.now, op)).1.Granted? {
      OwnGrantOnSlug(t0, t, me, p.records, slug, quiet, g.now, op);
    }
  }

  lemma GrantIsKept(t: Table, now: int, op: Op)
    requires op.TryAcquire? && Step(t, Call(now, op)).1.Granted?
    ensures var (t', o) := Step(t, Call(now, op));
            FenceOf(t, op.slug) < o.record.token && Kept(t', o.record, now)
  {}

  lemma OwnStepKeeps(t: Table, now: int, op: Op, r: Record)
    requires Kept(t, r, now) && (op.TryAcquire? || (op.Renew? && r.expiresAt <= now + op.ttl))
    ensures Kept(Step(t, Call(now, op)).0, r, now)
  {}

  /** A record kept before a turn is kept after it. */
  lemma TurnKeeps(p: Progress, r: Record, now: int, g: Gap, op: Op)
    requires p.Going? && Kept(p.table, r, now)
    requires ForeignCalls(g.calls, r.holder) && GapAfter(g, now)
    requires op.TryAcquire? || (op.Renew? && r.expiresAt <= g.now + op.ttl)
    ensures Kept(Turn(p, g, op).table, r, g.now)
  {
    GapOnRecord(p.table, r, now, g, |g.calls|);
    OwnStepKeeps(AfterGap(p.table, g), g.now, op, r);
  }

  /** Granted since t0, and kept. */
  ghost predicate New(t0: Table, t: Table, r: Record, now: int) {
    FenceOf(t0, r.slug) < r.token && Kept(t, r, now)
  }

  /** An acquire turn keeps what was kept, and what it is granted is new and kept. */
  lemma AcquireTurnKeeps(t0: Table, p: Progress, me: string, now: int, g: Gap, op: Op, j: nat)
    requires p.Going? && Since(t0, p.table, me, p.records, op.slug, false, now)
    requires forall r :: r in p.records ==> r.holder == me
    requires ForeignCalls(g.calls, me) && GapAfter(g, now) && op.TryAcquire?
    requires j < |Turn(p, g, op).records|
    requires j < |p.records| ==> New(t0, p.table, p.records[j], now)
    ensures var p' := Turn(p, g, op); New(t0, p'.table, p'.records[j], g.now)
  {
    if j < |p.records| {
      TurnKeeps(p, p.records[j], now, g, op);
    } else {
      GapOnSlug(t0, p.table, me, p.records, op.slug, false, now, g, |g.calls|);
      GrantIsKept(AfterGap(p.table, g), g.now, op);
    }
  }

  // ---- acquiring ----

  ghost predicate Acquires(ops: seq<Op>, me: string) {
    forall i :: 0 <= i < |ops| ==> ops[i].TryAcquire? && ops[i].holder == me
  }

  /** What an acquire loop has collected: one record per target in order, up to the first refusal. */
  ghost predicate Collected(p: Progress, schedule: seq<Gap>, ops: seq<Op>, me: string, n: nat)
    requires n <= |ops| && n <= |schedule| && Acquires(ops, me)
  {
    && (if p.Going? then |p.records| == n else |p.records| < n)
    && forall j :: 0 <= j < |p.records| ==>
         p.records[j].slug == ops[j].slug && p.records[j].holder == me && p.records[j].expiresAt == schedule[j].now + ops[j].ttl
  }

  lemma CollectedNext(p: Progress, schedule: seq<Gap>, ops: seq<Op>, me: string, n: nat)
    requires n < |ops| && n < |schedule| && Acquires(ops, me) && Collected(p, schedule, ops, me, n)
    ensures Collected(Turn(p, schedule[n], ops[n]), schedule, ops, me, n + 1)
  {}

  lemma {:induction false} AcquiredRecords(t0: Table, schedule: seq<Gap>, ops: seq<Op>, me: string, n: nat)
    requires n <= |ops| && n <= |schedule| && Acquires(ops, me)
    ensures Collected(Turns(t0, schedule, ops, n), schedule, ops, me, n)
  {
    if n == 0 {
      assert Turns(t0, schedule, ops, 0) == Going(t0, []);
    } else {
      AcquiredRecords(t0, schedule, ops, me, n - 1);
      CollectedNext(Turns(t0, schedule, ops, n - 1), schedule, ops, me, n - 1);
    }
  }

  /** The refused turn is the one behind the records. */
  lemma {:induction false} RefusedTurn(t0: Table, schedule: seq<Gap>, ops: seq<Op>, me: string, n: nat)
    requires n <= |ops| && n <= |schedule| && Acquires(ops, me) && Turns(t0, schedule, ops, n).Refused?
    ensures var p := Turns(t0, schedule, ops, n); |p.records| < n && Turns(t0, schedule, ops, |p.records| + 1) == p
  {
    var before := Turns(t0, schedule, ops, n - 1);
    if before.Refused? {
      assert Turns(t0, schedule, ops, n) == before;
      RefusedTurn(t0, schedule, ops, me, n - 1);
    } else {
      AcquiredRecords(t0, schedule, ops, me, n - 1);
      assert Turns(t0, schedule, ops, n).records == before.records;
    }
  }

  lemma GapOfSchedule(schedule: seq<Gap>, start: int, me: string, n: nat)
    requires n < |schedule| && Foreign(schedule, me) && Clocked(schedule, start)
    ensures GapAfter(schedule[n], Clock(schedule, n, start)) && ForeignCalls(schedule[n].calls, me)
    ensures Clock(schedule, n + 1, start) == schedule[n].now
  {}

  lemma AcquiredAreMine(t0: Table, schedule: seq<Gap>, ops: seq<Op>, me: string, n: nat)
    requires n <= |ops| && n <= |schedule| && Acquires(ops, me)
    ensures forall r :: r in Turns(t0, schedule, ops, n).records ==> r.holder == me
  {
    AcquiredRecords(t0, schedule, ops, me, n);
  }

  lemma AcquireOnSlugStep(t0: Table, schedule: seq<Gap>, start: int, ops: seq<Op>, me: string, n: nat, slug: Slug)
    requires n < |ops| && n < |schedule| && Acquires(ops, me) && Foreign(schedule, me) && Clocked(schedule, start)
    requires var p := Turns(t0, schedule, ops, n);
             p.Going? && Since(t0, p.table, me, p.records, slug, Quiet(schedule, slug), Clock(schedule, n, start))
    ensures var p := Turn(Turns(t0, schedule, ops, n), schedule[n], ops[n]);
            Since(t0, p.table, me, p.records, slug, Quiet(schedule, slug), Clock(schedule, n + 1, start))
  {
    var p := Turns(t0, schedule, ops, n);
    GapOfSchedule(schedule, start, me, n);
    AcquiredAreMine(t0, schedule, ops, me, n);
    AcquireTurnOnSlug(t0, p, me, slug, Quiet(schedule, slug), Clock(schedule, n, start), schedule[n], ops[n]);
  }

  lemma {:induction false} AcquireOnSlug(t0: Table, schedule: seq<Gap>, start: int, ops: seq<Op>, me: string, n: nat, slug: Slug)
    requires n <= |ops| && n <= |schedule| && Acquires(ops, me)
    requires Consistent(t0) && Foreign(schedule, me) && Clocked(schedule, start)
    ensures var p := Turns(t0, schedule, ops, n);
            Since(t0, p.table, me, p.records, slug, Quiet(schedule, slug), Clock(schedule, n, start))
  {
    if n == 0 {
    } else {
      AcquireOnSlug(t0, schedule, start, ops, me, n - 1, slug);
      if Turns(t0, schedule, ops, n - 1).Going? {
        AcquireOnSlugStep(t0, schedule, start, ops, me, n - 1, slug);
      } else {
        ClockRises(schedule, start, n - 1, n);
      }
    }
  }

  lemma AcquireKeepsStep(t0: Table, schedule: seq<Gap>, start: int, ops: seq<Op>, me: string, n: nat, j: nat)
    requires n < |ops| && n < |schedule| && Acquires(ops, me)
    requires Consistent(t0) && Foreign(schedule, me) && Clocked(schedule, start)
    requires var p := Turns(t0, schedule, ops, n);
             && p.Going? && j < |Turn(p, schedule[n], ops[n]).records|
             && (j < |p.records| ==> New(t0, p.table, p.records[j], Clock(schedule, n, start)))
    ensures var p := Turn(Turns(t0, schedule, ops, n), schedule[n], ops[n]);
            New(t0, p.table, p.records[j], Clock(schedule, n + 1, start))
  {
    AcquiredAreMine(t0, schedule, ops, me, n);
    AcquireOnSlug(t0, schedule, start, ops, me, n, ops[n].slug);
    GapOfSchedule(schedule, start, me, n);
    var p, now := Turns(t0, schedule, ops, n), Clock(schedule, n, start);
    assert Since(t0, p.table, me, p.records, ops[n].slug, false, now);
    AcquireTurnKeeps(t0, p, me, now, schedule[n], ops[n], j);
  }

  lemma KeptOverIdle(t: Table, r: Record, before: int, now: int)
    requires Kept(t, r, before) && before <= now
    ensures Kept(t, r, now)
  {}

  /** Record j, from its grant on. */
  lemma {:induction false} AcquireKeeps(t0: Table, schedule: seq<Gap>, start: int, ops: seq<Op>, me: string, n: nat, j: nat)
    requires n <= |ops| && n <= |schedule| && Acquires(ops, me)
    requires Consistent(t0) && Foreign(schedule, me) && Clocked(schedule, start)
    requires j < |Turns(t0, schedule, ops, n).records|
    ensures var p := Turns(t0, schedule, ops, n); New(t0, p.table, p.records[j], Clock(schedule, n, start))
  {
    var p := Turns(t0, schedule, ops, n - 1);
    if j < |p.records| {
      AcquireKeeps(t0, schedule, start, ops, me, n - 1, j);
    }
    if p.Going? {
      AcquireKeepsStep(t0, schedule, start, ops, me, n - 1, j);
    } else {
      ClockRises(schedule, start, n - 1, n);
      KeptOverIdle(p.table, p.records[j], Clock(schedule, n - 1, start), Clock(schedule, n, start));
    }
  }

  // ---- releasing ----

  ghost predicate Releases(ops: seq<Op>, recs: seq<Record>) {
    && |ops| == |recs|
    && forall i :: 0 <= i < |ops| ==>
         ops[i].Release? && ops[i].slug == recs[i].slug && ops[i].holder == recs[i].holder && ops[i].token == recs[i].token
  }

  ghost predicate Held(recs: seq<Record>, me: string) {
    forall j :: 0 <= j < |recs| ==> recs[j].holder == me
  }

  lemma ReleaseTurnOnSlug(t0: Table, t: Table, me: string, slug: Slug, quiet: bool, now: int, g: Gap, op: Op)
    requires Since(t0, t, me, [], slug, quiet, now)
    requires ForeignCalls(g.calls, me) && GapAfter(g, now) && (quiet ==> Avoids(g.calls, slug))
    requires op.Release? && op.holder == me
    ensures var p := Turn(Going(t, []), g, op);
            p == Going(p.table, []) && Since(t0, p.table, me, [], slug, quiet, g.now)
  {
    GapOnSlug(t0, t, me, [], slug, quiet, now, g, |g.calls|);
    OwnReleaseOnSlug(t0, AfterGap(t, g), me, slug, quiet, g.now, op);
  }

  lemma {:induction false} ReleaseOnSlug(t0: Table, schedule: seq<Gap>, start: int, ops: seq<Op>, recs: seq<Record>, me: string, n: nat, slug: Slug)
    requires n <= |ops| && n <= |schedule| && Releases(ops, recs) && Held(recs, me)
    requires slug in t0.leases ==> t0.leases[slug].token == FenceOf(t0, slug)
    requires Foreign(schedule, me) && Clocked(schedule, start)
    ensures var p := Turns(t0, schedule, ops, n);
            && p == Going(p.table, [])
            && Since(t0, p.table, me, [], slug, Quiet(schedule, slug), Clock(schedule, n, start))
  {
    if n == 0 {
    } else {
      ReleaseOnSlug(t0, schedule, start, ops, recs, me, n - 1, slug);
      var p, g := Turns(t0, schedule, ops, n - 1), schedule[n - 1];
      assert GapAfter(g, Clock(schedule, n - 1, start)) && ForeignCalls(g.calls, me);
      ReleaseTurnOnSlug(t0, p.table, me, slug, Quiet(schedule, slug), Clock(schedule, n - 1, start), g, ops[n - 1]);
    }
  }

  lemma ReleaseTurnRetires(t: Table, r: Record, now: int, g: Gap, op: Op)
    requires r.token <= FenceOf(t, r.slug)
    requires ForeignCalls(g.calls, r.holder) && GapAfter(g, now) && op.Release?
    requires Retired(t, r) || (op.slug == r.slug && op.holder == r.holder && op.token == r.token)
    ensures Retired(Turn(Going(t, []), g, op).table, r)
  {
    GapOnRecord(t, r, now, g, |g.calls|);
  }

  lemma {:induction false} ReleaseRetires(t0: Table, schedule: seq<Gap>, start: int, ops: seq<Op>, recs: seq<Record>, me: string, n: nat, j: nat)
    requires j < n <= |ops| && n <= |schedule| && Releases(ops, recs) && Held(recs, me)
    requires Foreign(schedule, me) && Clocked(schedule, start)
    requires recs[j].token <= FenceOf(t0, recs[j].slug)
    requires forall s :: s in t0.leases ==> t0.leases[s].token == FenceOf(t0, s)
    ensures Retired(Turns(t0, schedule, ops, n).table, recs[j])
  {
    var p, g := Turns(t0, schedule, ops, n - 1), schedule[n - 1];
    ReleaseOnSlug(t0, schedule, start, ops, recs, me, n - 1, recs[j].slug);
    assert GapAfter(g, Clock(schedule, n - 1, start)) && ForeignCalls(g.calls, me);
    if j < n - 1 {
      ReleaseRetires(t0, schedule, start, ops, recs, me, n - 1, j);
    }
    ReleaseTurnRetires(p.table, recs[j], Clock(schedule, n - 1, start), g, ops[n - 1]);
  }

  // ---- renewing ----

  ghost predicate Renews(ops: seq<Op>, recs: seq<Record>, ttl: int) {
    && |ops| == |recs|
    && forall i :: 0 <= i < |ops| ==>
         && ops[i].Renew? && ops[i].slug == recs[i].slug && ops[i].holder == recs[i].holder
         && ops[i].token == recs[i].token && ops[i].ttl == ttl
  }

  /** A round of renewals keeps slug, holder and token of every record. */
  lemma {:induction false} RenewedRecords(t0: Table, schedule: seq<Gap>, ops: seq<Op>, recs: seq<Record>, ttl: int, n: nat)
    requires n <= |ops| && n <= |schedule| && Renews(ops, recs, ttl)
    ensures var p := Turns(t0, schedule, ops, n);
            && |p.records| <= n && (p.Going? ==> |p.records| == n)
            && forall j :: 0 <= j < |p.records| ==>
                 && p.records[j].slug == recs[j].slug
                 && p.records[j].holder == recs[j].holder
                 && p.records[j].token == recs[j].token
                 && p.records[j].expiresAt == schedule[j].now + ttl
  {
    if n == 0 {
    } else {
      RenewedRecords(t0, schedule, ops, recs, ttl, n - 1);
    }
  }

  lemma RenewTurnOnSlug(p: Progress, me: string, now: int, g: Gap, op: Op, slug: Slug)
    requires p.Going? && (slug in p.table.leases ==> p.table.leases[slug].token == FenceOf(p.table, slug))
    requires ForeignCalls(g.calls, me) && GapAfter(g, now) && op.Renew?
    ensures var p' := Turn(p, g, op);
            && FenceOf(p.table, slug) <= FenceOf(p'.table, slug)
            && (slug in p'.table.leases ==> p'.table.leases[slug].token == FenceOf(p'.table, slug))
            && (op.slug == slug && p'.Going? ==> Kept(p'.table, p'.records[|p.records|], g.now))
  {
    GapOnSlug(p.table, p.table, me, [], slug, false, now, g, |g.calls|);
  }

  lemma RenewTurnKeeps(p: Progress, me: string, now: int, g: Gap, op: Op, j: nat)
    requires p.Going? && (op.slug in p.table.leases ==> p.table.leases[op.slug].token == FenceOf(p.table, op.slug))
    requires ForeignCalls(g.calls, me) && GapAfter(g, now) && op.Renew?
    requires j < |Turn(p, g, op).records|
    requires j < |p.records| ==>
               Kept(p.table, p.records[j], now) && p.records[j].holder == me && p.records[j].expiresAt <= g.now + op.ttl
    ensures var p' := Turn(p, g, op); Kept(p'.table, p'.records[j], g.now)
  {
    if j < |p.records| {
      TurnKeeps(p, p.records[j], now, g, op);
    } else {
      RenewTurnOnSlug(p, me, now, g, op, op.slug);
    }
  }

  lemma {:induction false} RenewFence(t0: Table, schedule: seq<Gap>, start: int, ops: seq<Op>, recs: seq<Record>, me: string, ttl: int, n: nat, slug: Slug)
    requires n <= |ops| && n <= |schedule| && Renews(ops, recs, ttl)
    requires Consistent(t0) && Foreign(schedule, me) && Clocked(schedule, start)
    ensures var t := Turns(t0, schedule, ops, n).table;
            && FenceOf(t0, slug) <= FenceOf(t, slug)
            && (slug in t.leases ==> t.leases[slug].token == FenceOf(t, slug))
  {
    if n == 0 {
    } else {
      RenewFence(t0, schedule, start, ops, recs, me, ttl, n - 1, slug);
      var p, g := Turns(t0, schedule, ops, n - 1), schedule[n - 1];
      assert GapAfter(g, Clock(schedule, n - 1, start)) && ForeignCalls(g.calls, me);
      if p.Going? {
        RenewTurnOnSlug(p, me, Clock(schedule, n - 1, start), g, ops[n - 1], slug);
      }
    }
  }

  predicate SameLease(t: Table, t': Table, slug: Slug) {
    (slug in t.leases <==> slug in t'.leases) && (slug in t.leases ==> t.leases[slug] == t'.leases[slug])
  }

  lemma {:induction false} AvoidedStays(t: Table, calls: seq<Call>, n: nat, slug: Slug)
    requires n <= |calls| && Avoids(calls, slug)
    ensures SameLease(t, StateAt(t, calls, n), slug)
  {
    if n == 0 {
      assert StateAt(t, calls, 0) == t;
    } else {
      AvoidedStays(t, calls, n - 1, slug);
      assert calls[n - 1].op.slug != slug;
    }
  }

  lemma RenewTurnSpares(p: Progress, g: Gap, op: Op, slug: Slug)
    requires p.Going? && Avoids(g.calls, slug) && op.Renew?
    requires slug in p.table.leases ==> p.table.leases[slug].holder != op.holder
    ensures SameLease(p.table, Turn(p, g, op).table, slug)
  {
    AvoidedStays(p.table, g.calls, |g.calls|, slug);
  }

  /** A renewal round of ours takes no lease from anybody and gives us none: the lease of another holder, live
      or not, stays as it is while the others leave it alone, and a slug without one stays without. */
  lemma {:induction false} RenewSparesOthers(t0: Table, schedule: seq<Gap>, ops: seq<Op>, recs: seq<Record>, me: string, ttl: int, n: nat, slug: Slug)
    requires n <= |ops| && n <= |schedule| && Renews(ops, recs, ttl) && Held(recs, me) && Quiet(schedule, slug)
    requires slug in t0.leases ==> t0.leases[slug].holder != me
    ensures SameLease(t0, Turns(t0, schedule, ops, n).table, slug)
  {
    if n == 0 {
      assert Turns(t0, schedule, ops, 0).table == t0;
    } else {
      RenewSparesOthers(t0, schedule, ops, recs, me, ttl, n - 1, slug);
      var p := Turns(t0, schedule, ops, n - 1);
      assert recs[n - 1].holder == me && Avoids(schedule[n - 1].calls, slug);
      if p.Going? {
        RenewTurnSpares(p, schedule[n - 1], ops[n - 1], slug);
      }
    }
  }

  lemma RenewKeepsStep(t0: Table, schedule: seq<Gap>, start: int, ops: seq<Op>, recs: seq<Record>, me: string, ttl: int, n: nat, j: nat)
    requires n < |ops| && n < |schedule| && Renews(ops, recs, ttl) && Held(recs, me)
    requires Consistent(t0) && Foreign(schedule, me) && Clocked(schedule, start)
    requires var p := Turns(t0, schedule, ops, n);
             && p.Going? && j < |Turn(p, schedule[n], ops[n]).records|
             && (j < |p.records| ==> Kept(p.table, p.records[j], Clock(schedule, n, start)))
    ensures var p := Turn(Turns(t0, schedule, ops, n), schedule[n], ops[n]);
            Kept(p.table, p.records[j], Clock(schedule, n + 1, start))
  {
    var p, now := Turns(t0, schedule, ops, n), Clock(schedule, n, start);
    RenewFence(t0, schedule, start, ops, recs, me, ttl, n, ops[n].slug);
    GapOfSchedule(schedule, start, me, n);
    RenewedRecords(t0, schedule, ops, recs, ttl, n);
    if j < |p.records| {
      assert recs[j].holder == me;
      assert GapAfter(schedule[n], schedule[j].now);
    }
    RenewTurnKeeps(p, me, now, schedule[n], ops[n], j);
  }

  /** Every lease renewed in a round is kept to its new expiry, even when a later one turns out to be lost. */
  lemma {:induction false} RenewKeeps(t0: Table, schedule: seq<Gap>, start: int, ops: seq<Op>, recs: seq<Record>, me: string, ttl: int, n: nat, j: nat)
    requires n <= |ops| && n <= |schedule| && Renews(ops, recs, ttl) && Held(recs, me)
    requires Consistent(t0) && Foreign(schedule, me) && Clocked(schedule, start)
    requires j < |Turns(t0, schedule, ops, n).records|
    ensures var p := Turns(t0, schedule, ops, n); Kept(p.table, p.records[j], Clock(schedule, n, start))
  {
    var p := Turns(t0, schedule, ops, n - 1);
    if j < |p.records| {
      RenewKeeps(t0, schedule, start, ops, recs, me, ttl, n - 1, j);
    }
    if p.Going? {
      RenewKeepsStep(t0, schedule, start, ops, recs, me, ttl, n - 1, j);
    } else {
      ClockRises(schedule, start, n - 1, n);
      KeptOverIdle(p.table, p.records[j], Clock(schedule, n - 1, start), Clock(schedule, n, start));
    }
  }

  // ---- the whole attempt ----

  predicate Leq(a: string, b: string) {
    a == [] || (b != [] && (a[0] < b[0] || (a[0] == b[0] && Leq(a[1..], b[1..]))))
  }

  /** The slug itself first, then its neighbours in order. */
  function Targets(slug: Slug, neighbors: seq<Slug>): seq<Slug> {
    [slug] + SortBy(Filter(neighbors, s => s != slug), Leq)
  }

  /** Make the acquire calls in turn; at the first refusal release what was granted, in the same order. */
  function Attempt(t0: Table, schedule: seq<Gap>, ops: seq<Op>): Progress
    requires 2 * |ops| <= |schedule|
  {
    var p := Turns(t0, schedule, ops, |ops|);
    var n := |p.records|;
    if p.Going? || |ops| <= n then p
    else Refused(Turns(p.table, schedule[n + 1..], ReleaseOps(p.records), n).table, p.records)
  }

  lemma RefusedAttempt(t0: Table, schedule: seq<Gap>, ops: seq<Op>, i: nat, p: Progress)
    requires i < |ops| && 2 * |ops| <= |schedule| && p.Going? && |p.records| == i
    requires Turns(t0, schedule, ops, i) == p && Turn(p, schedule[i], ops[i]).Refused?
    ensures Turns(t0, schedule, ops, |ops|) == Refused(Turn(p, schedule[i], ops[i]).table, p.records)
    ensures Attempt(t0, schedule, ops)
         == Refused(Turns(Turn(p, schedule[i], ops[i]).table, schedule[i + 1..], ReleaseOps(p.records), i).table, p.records)
  {
    assert Turns(t0, schedule, ops, i + 1) == Refused(Turn(p, schedule[i], ops[i]).table, p.records);
    RefusalIsFinal(t0, schedule, ops, i + 1, |ops|);
  }

  /** On success every target was granted, under a token newer than any before, and is still held
      unless its time has already run out. */
  lemma AttemptGrantsAll(t0: Table, schedule: seq<Gap>, start: int, ops: seq<Op>, me: string)
    requires 2 * |ops| <= |schedule| && Acquires(ops, me) && Attempt(t0, schedule, ops).Going?
    requires Consistent(t0) && Foreign(schedule, me) && Clocked(schedule, start)
    ensures var p := Attempt(t0, schedule, ops);
            && |p.records| == |ops|
            && forall j :: 0 <= j < |ops| ==>
                 && p.records[j].slug == ops[j].slug && p.records[j].holder == me
                 && FenceOf(t0, ops[j].slug) < p.records[j].token
                 && Kept(p.table, p.records[j], Clock(schedule, |ops|, start))
  {
    AcquiredRecords(t0, schedule, ops, me, |ops|);
    var p := Attempt(t0, schedule, ops);
    forall j | 0 <= j < |ops|
      ensures FenceOf(t0, ops[j].slug) < p.records[j].token && Kept(p.table, p.records[j], Clock(schedule, |ops|, start))
    {
      AcquireKeeps(t0, schedule, start, ops, me, |ops|, j);
    }
  }

  lemma ClockedRest(schedule: seq<Gap>, n: nat, start: int, me: string, slug: Slug)
    requires n < |schedule| && Clocked(schedule, start) && Foreign(schedule, me)
    ensures var rest := schedule[n + 1..];
            Clocked(rest, schedule[n].now) && Foreign(rest, me) && (Quiet(schedule, slug) ==> Quiet(rest, slug))
  {
    var rest := schedule[n + 1..];
    forall i | 0 <= i < |rest| ensures GapAfter(rest[i], schedule[n].now) {
      assert rest[i] == schedule[n + 1 + i];
    }
    forall i, j | 0 <= i < j < |rest| ensures GapAfter(rest[j], rest[i].now) {
      assert GapAfter(schedule[n + 1 + j], schedule[n + 1 + i].now);
    }
  }

  /** The state in which a refused attempt starts to roll back. */
  lemma BeforeRollback(t0: Table, schedule: seq<Gap>, start: int, ops: seq<Op>, me: string)
    requires |ops| <= |schedule| && Acquires(ops, me) && Turns(t0, schedule, ops, |ops|).Refused?
    requires Consistent(t0) && Foreign(schedule, me) && Clocked(schedule, start)
    ensures var p := Turns(t0, schedule, ops, |ops|);
            var n := |p.records|;
            && n < |ops| && Held(p.records, me)
            && (forall s :: Since(t0, p.table, me, p.records, s, Quiet(schedule, s), schedule[n].now))
            && (forall j :: 0 <= j < n ==> p.records[j].token <= FenceOf(p.table, p.records[j].slug))
  {
    AcquiredRecords(t0, schedule, ops, me, |ops|);
    RefusedTurn(t0, schedule, ops, me, |ops|);
    SinceAtRefusal(t0, schedule, start, ops, me, |Turns(t0, schedule, ops, |ops|).records| + 1);
    TokensAreIssued(t0, schedule, start, ops, me);
  }

  lemma SinceAtRefusal(t0: Table, schedule: seq<Gap>, start: int, ops: seq<Op>, me: string, n: nat)
    requires 0 < n <= |ops| <= |schedule| && Acquires(ops, me)
    requires Consistent(t0) && Foreign(schedule, me) && Clocked(schedule, start)
    ensures var p := Turns(t0, schedule, ops, n);
            forall s :: Since(t0, p.table, me, p.records, s, Quiet(schedule, s), schedule[n - 1].now)
  {
    var p := Turns(t0, schedule, ops, n);
    forall s ensures Since(t0, p.table, me, p.records, s, Quiet(schedule, s), schedule[n - 1].now) {
      AcquireOnSlug(t0, schedule, start, ops, me, n, s);
    }
  }

  lemma TokensAreIssued(t0: Table, schedule: seq<Gap>, start: int, ops: seq<Op>, me: string)
    requires |ops| <= |schedule| && Acquires(ops, me)
    requires Consistent(t0) && Foreign(schedule, me) && Clocked(schedule, start)
    ensures var p := Turns(t0, schedule, ops, |ops|);
            forall j :: 0 <= j < |p.records| ==> p.records[j].token <= FenceOf(p.table, p.records[j].slug)
  {
    var p := Turns(t0, schedule, ops, |ops|);
    forall j | 0 <= j < |p.records| ensures p.records[j].token <= FenceOf(p.table, p.records[j].slug) {
      AcquireKeeps(t0, schedule, start, ops, me, |ops|, j);
    }
  }

  /** The rollback retires every record of the attempt, and undoes nothing else. */
  lemma RollbackOnSlug(t1: Table, schedule: seq<Gap>, start: int, recs: seq<Record>, me: string, slug: Slug)
    requires |recs| <= |schedule| && Held(recs, me)
    requires forall j :: 0 <= j < |recs| ==> recs[j].token <= FenceOf(t1, recs[j].slug)
    requires forall s :: s in t1.leases ==> t1.leases[s].token == FenceOf(t1, s)
    requires Foreign(schedule, me) && Clocked(schedule, start)
    ensures var t2 := Turns(t1, schedule, ReleaseOps(recs), |recs|).table;
            && Since(t1, t2, me, [], slug, Quiet(schedule, slug), Clock(schedule, |recs|, start))
            && forall j :: 0 <= j < |recs| ==> !Owns(t2, recs[j])
  {
    var ops := ReleaseOps(recs);
    ReleaseOnSlug(t1, schedule, start, ops, recs, me, |recs|, slug);
    forall j | 0 <= j < |recs| ensures !Owns(Turns(t1, schedule, ops, |recs|).table, recs[j]) {
      ReleaseRetires(t1, schedule, start, ops, recs, me, |recs|, j);
    }
  }

  lemma NothingIsLeft(t0: Table, t1: Table, t2: Table, me: string, recs: seq<Record>, slug: Slug, quiet: bool, quiet2: bool, now1: int, now2: int)
    requires Since(t0, t1, me, recs, slug, quiet, now1) && now1 <= now2 && (quiet ==> quiet2)
    requires Since(t1, t2, me, [], slug, quiet2, now2)
    requires forall j :: 0 <= j < |recs| ==> !Owns(t2, recs[j])
    ensures Since(t0, t2, me, [], slug, quiet, now2)
  {
    if slug in t2.leases && t2.leases[slug].holder == me {
      if r :| r in recs && r.slug == slug && Owns(t1, r) {
        assert Owns(t2, r);
      }
    }
  }

  /** The clock over a rollback behind turn n. */
  lemma RollbackClock(schedule: seq<Gap>, start: int, n: nat, end: nat)
    requires 2 * n + 1 <= end <= |schedule| && Clocked(schedule, start)
    ensures schedule[n].now <= Clock(schedule[n + 1..], n, schedule[n].now) <= Clock(schedule, end, start)
  {
    assert Clock(schedule[n + 1..], n, schedule[n].now) == Clock(schedule, 2 * n + 1, start);
    ClockRises(schedule, start, n + 1, 2 * n + 1);
    ClockRises(schedule, start, 2 * n + 1, end);
  }

  lemma RefusedLeavesNoTrace(t0: Table, schedule: seq<Gap>, start: int, ops: seq<Op>, me: string, slug: Slug)
    requires 2 * |ops| <= |schedule| && Acquires(ops, me) && Turns(t0, schedule, ops, |ops|).Refused?
    requires Consistent(t0) && Foreign(schedule, me) && Clocked(schedule, start)
    ensures var p := Turns(t0, schedule, ops, |ops|);
            var n := |p.records|;
            && n < |ops|
            && var rest := schedule[n + 1..];
               Since(t0, Turns(p.table, rest, ReleaseOps(p.records), n).table, me, [], slug, Quiet(schedule, slug),
                     Clock(rest, n, schedule[n].now))
  {
    BeforeRollback(t0, schedule, start, ops, me);
    var p := Turns(t0, schedule, ops, |ops|);
    var n := |p.records|;
    ClockedRest(schedule, n, start, me, slug);
    RollbackClock(schedule, start, n, 2 * |ops|);
    var rest, now := schedule[n + 1..], schedule[n].now;
    forall s ensures s in p.table.leases ==> p.table.leases[s].token == FenceOf(p.table, s) {
      assert Since(t0, p.table, me, p.records, s, Quiet(schedule, s), now);
    }
    RollbackOnSlug(p.table, rest, now, p.records, me, slug);
    NothingIsLeft(t0, p.table, Turns(p.table, rest, ReleaseOps(p.records), n).table, me, p.records, slug,
                  Quiet(schedule, slug), Quiet(rest, slug), now, Clock(rest, n, now));
  }

  lemma SinceLasts(t0: Table, t: Table, me: string, recs: seq<Record>, slug: Slug, quiet: bool, now: int, later: int)
    requires Since(t0, t, me, recs, slug, quiet, now) && now <= later
    ensures Since(t0, t, me, recs, slug, quiet, later)
  {}

  /** When an attempt is refused, nothing it was granted is left: every lease still under our name is
      one we had before. Refused or not, fences only rise, and a live lease of another holder that the
      others leave alone is left alone by us. */
  lemma AttemptLeavesNoTrace(t0: Table, schedule: seq<Gap>, start: int, ops: seq<Op>, me: string, slug: Slug)
    requires 2 * |ops| <= |schedule| && Acquires(ops, me)
    requires Consistent(t0) && Foreign(schedule, me) && Clocked(schedule, start)
    ensures var p := Attempt(t0, schedule, ops);
            Since(t0, p.table, me, if p.Going? then p.records else [], slug, Quiet(schedule, slug), Clock(schedule, 2 * |ops|, start))
  {
    var p, q := Turns(t0, schedule, ops, |ops|), Attempt(t0, schedule, ops);
    var now := Clock(schedule, |ops|, start);
    if p.Going? {
      AcquireOnSlug(t0, schedule, start, ops, me, |ops|, slug);
      ClockRises(schedule, start, |ops|, 2 * |ops|);
    } else {
      var n := |p.records|;
      RefusedLeavesNoTrace(t0, schedule, start, ops, me, slug);
      RollbackClock(schedule, start, n, 2 * |ops|);
      now := Clock(schedule[n + 1..], n, schedule[n].now);
    }
    SinceLasts(t0, q.table, me, if p.Going? then p.records else [], slug, Quiet(schedule, slug), now, Clock(schedule, 2 * |ops|, start));
  }

  lemma ClockRises(schedule: seq<Gap>, start: int, m: nat, n: nat)
    requires m <= n <= |schedule| && Clocked(schedule, start)
    ensures Clock(schedule, m, start) <= Clock(schedule, n, start)
  {
    if 0 < m < n {
      assert GapAfter(schedule[n - 1], schedule[m - 1].now);
    } else if m < n {
      assert GapAfter(schedule[n - 1], start);
    }
  }

  // ---- the context manager ----

  class NeighborhoodLock {
    const registry: SqliteLockRegistry
    const slug: Slug
    const neighbors: seq<Slug>
    const me: string
    const ttl: int
    var records: seq<Record>

    constructor (registry: SqliteLockRegistry, slug: Slug, neighbors: seq<Slug>, me: string, ttl: int)
      ensures this.registry == registry && this.slug == slug && this.neighbors == neighbors
      ensures this.me == me && this.ttl == ttl && records == []
    {
      this.registry := registry;
      this.slug := slug;
      this.neighbors := neighbors;
      this.me := me;
      this.ttl := ttl;
      records := [];
    }

    /** The others' turn. */
    method Yield(g: Gap)
      modifies registry
      ensures registry.View() == AfterGap(old(registry.View()), g)
    {
      for i := 0 to |g.calls|
        invariant registry.View() == StateAt(old(registry.View()), g.calls, i)
      {
        var _ := registry.Serve(g.calls[i]);
      }
    }

    method ReleaseAll(recs: seq<Record>, schedule: seq<Gap>)
      requires |recs| <= |schedule|
      modifies registry
      ensures registry.View() == Turns(old(registry.View()), schedule, ReleaseOps(recs), |recs|).table
    {
      ghost var t0, ops := registry.View(), ReleaseOps(recs);
      for i := 0 to |recs|
        invariant Turns(t0, schedule, ops, i) == Going(registry.View(), [])
      {
        Yield(schedule[i]);
        var _ := registry.Release(schedule[i].now, recs[i].slug, recs[i].holder, recs[i].token);
      }
    }

    /** Acquire in turn, up to the first refusal. */
    method AcquireAll(targets: seq<Slug>, schedule: seq<Gap>) returns (acquired: seq<Record>, ok: bool)
      requires 2 * |targets| <= |schedule|
      modifies registry
      ensures Turns(old(registry.View()), schedule, AcquireOps(targets, me, ttl), |targets|)
           == if ok then Going(registry.View(), acquired) else Refused(registry.View(), acquired)
    {
      ghost var t0, ops := registry.View(), AcquireOps(targets, me, ttl);
      acquired := [];
      for i := 0 to |targets|
        invariant |acquired| == i
        invariant Turns(t0, schedule, ops, i) == Going(registry.View(), acquired)
      {
        ghost var before := Going(registry.View(), acquired);
        Yield(schedule[i]);
        var o := registry.TryAcquire(schedule[i].now, targets[i], me, ttl);
        if o.Conflict? {
          RefusedAttempt(t0, schedule, ops, i, before);
          return acquired, false;
        }
        acquired := acquired + [o.record];
      }
      ok := true;
    }

    method Enter(schedule: seq<Gap>) returns (ok: bool)
      requires 2 * |Targets(slug, neighbors)| <= |schedule|
      modifies this, registry
      ensures var p := Attempt(old(registry.View()), schedule, AcquireOps(Targets(slug, neighbors), me, ttl));
              && ok == p.Going?
              && registry.View() == p.table
              && records == if ok then p.records else old(records)
    {
      var targets := Targets(slug, neighbors);
      ghost var t0, ops := registry.View(), AcquireOps(targets, me, ttl);
      var acquired;
      acquired, ok := AcquireAll(targets, schedule);
      if ok {
        records := acquired;
      } else {
        AcquiredRecords(t0, schedule, ops, me, |ops|);
        ReleaseAll(acquired, schedule[|acquired| + 1..]);
      }
    }

    /** One round of the renewer; when a lease is lost the records stay as they were, so that leaving
        the block still releases what is left. */
    method RenewRound(schedule: seq<Gap>) returns (ok: bool)
      requires |records| <= |schedule|
      modifies this, registry
      ensures var p := Turns(old(registry.View()), schedule, RenewOps(old(records), ttl), |old(records)|);
              && ok == p.Going?
              && registry.View() == p.table
              && records == if ok then p.records else old(records)
    {
      ghost var t0, ops := registry.View(), RenewOps(records, ttl);
      var renewed: seq<Record> := [];
      for i := 0 to |records|
        modifies registry
        invariant |renewed| == i
        invariant Turns(t0, schedule, ops, i) == Going(registry.View(), renewed)
      {
        var rec := records[i];
        Yield(schedule[i]);
        var o := registry.Renew(schedule[i].now, rec.slug, rec.holder, rec.token, ttl);
        if o.Conflict? {
          assert Turns(t0, schedule, ops, i + 1) == Refused(registry.View(), renewed);
          RefusalIsFinal(t0, schedule, ops, i + 1, |ops|);
          return false;
        }
        renewed := renewed + [o.record];
      }
      records := renewed;
      return true;
    }

    method Exit(schedule: seq<Gap>)
      requires |records| <= |schedule|
      modifies this, registry
      ensures records == []
      ensures registry.View() == Turns(old(registry.View()), schedule, ReleaseOps(old(records)), |old(records)|).table
    {
      ReleaseAll(records, schedule);
      records := [];
    }
  }
}
