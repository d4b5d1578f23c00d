/** A neighbourhood held from entering to leaving: rounds of renewals that come in time. */
module NeighborhoodSessions {
  import opened LeaseProtocol
  import opened NeighborhoodLocks

  /** One round of the renewer. When a lease is lost the records stay as they were. */
  function Round(p: Progress, schedule: seq<Gap>, ttl: int): (r: Progress)
    requires |p.records| <= |schedule|
    ensures |r.records| <= |schedule|
  {
    var q := Turns(p.table, schedule, RenewOps(p.records, ttl), |p.records|);
    if q.Going? then q else Refused(q.table, p.records)
  }

  /** After the first k rounds, each behind its gaps, up to the first loss. */
  function AfterRounds(t: Table, recs: seq<Record>, rounds: seq<seq<Gap>>, ttl: int, k: nat): (r: Progress)
    requires k <= |rounds| && forall i :: 0 <= i < |rounds| ==> |rounds[i]| == |recs|
    ensures |r.records| <= |recs|
  {
    if k == 0 then Going(t, recs)
    else
      var p := AfterRounds(t, recs, rounds, ttl, k - 1);
      if p.Refused? then p else Round(p, rounds[k - 1], ttl)
  }

  /** When the k-th round's predecessor began and ended; the entry is the predecessor of the first. */
  function BeganAt(rounds: seq<seq<Gap>>, entered: int, k: nat): int
    requires k <= |rounds|
  {
    if k == 0 || rounds[k - 1] == [] then entered else rounds[k - 1][0].now
  }

  function EndedAt(rounds: seq<seq<Gap>>, holding: int, k: nat): int
    requires k <= |rounds|
  {
    if k == 0 || rounds[k - 1] == [] then holding else rounds[k - 1][|rounds[k - 1]| - 1].now
  }

  /** Round k ends within one ttl of the beginning of the one before it. */
  predicate Timely(rounds: seq<seq<Gap>>, entered: int, holding: int, ttl: int, k: nat)
    requires k < |rounds|
  {
    EndedAt(rounds, holding, k + 1) < BeganAt(rounds, entered, k) + ttl
  }

  ghost predicate InTime(rounds: seq<seq<Gap>>, entered: int, holding: int, ttl: int) {
    forall k :: 0 <= k < |rounds| ==> Timely(rounds, entered, holding, ttl, k)
  }

  /** Round k comes after the one before it; the others act under other names. */
  ghost predicate RoundFits(rounds: seq<seq<Gap>>, holding: int, me: string, k: nat)
    requires k < |rounds|
  {
    Foreign(rounds[k], me) && Clocked(rounds[k], EndedAt(rounds, holding, k))
  }

  ghost predicate Interleaved(rounds: seq<seq<Gap>>, holding: int, me: string, size: nat) {
    && 0 < size && (forall k :: 0 <= k < |rounds| ==> |rounds[k]| == size)
    && forall k :: 0 <= k < |rounds| ==> RoundFits(rounds, holding, me, k)
  }

  // ---- one round ----

  /** A record that is kept, and runs out after from + ttl but not after to + ttl. */
  ghost predicate Fresh(t: Table, r: Record, me: string, from: int, to: int, ttl: int) {
    r.holder == me && Kept(t, r, to) && from + ttl <= r.expiresAt <= to + ttl
  }

  lemma RenewalGranted(t: Table, r: Record, now: int, ttl: int)
    requires Kept(t, r, now) && now < r.expiresAt
    ensures var (t', o) := Step(t, Call(now, Renew(r.slug, r.holder, r.token, ttl)));
            o == Granted(Record(r.slug, r.holder, r.token, now, now + ttl)) && Kept(t', o.record, now)
  {}

  /** The record as it is after n turns of a round. */
  function Current(p: Progress, recs: seq<Record>, j: nat): Record
    requires j < |recs|
  {
    if j < |p.records| then p.records[j] else recs[j]
  }

  ghost predicate Prompt(t: Table, recs: seq<Record>, schedule: seq<Gap>, me: string, from: int, to: int, ttl: int) {
    && |recs| == |schedule| && Foreign(schedule, me) && Clocked(schedule, to)
    && (forall j :: 0 <= j < |recs| ==> Fresh(t, recs[j], me, from, to, ttl))
    && (forall j :: 0 <= j < |schedule| ==> schedule[j].now < from + ttl)
  }

  lemma TurnRenews(p: Progress, r: Record, me: string, before: int, g: Gap, ttl: int)
    requires p.Going? && Kept(p.table, r, before) && r.holder == me && g.now < r.expiresAt
    requires ForeignCalls(g.calls, me) && GapAfter(g, before)
    ensures var q := Turn(p, g, Renew(r.slug, me, r.token, ttl));
            && q.Going? && q.records == p.records + [Record(r.slug, me, r.token, g.now, g.now + ttl)]
            && Kept(q.table, q.records[|p.records|], g.now)
  {
    GapOnRecord(p.table, r, before, g, |g.calls|);
    RenewalGranted(AfterGap(p.table, g), r, g.now, ttl);
  }

  /** After n turns of a round, as far as record j goes. */
  ghost predicate Renewing(p: Progress, recs: seq<Record>, schedule: seq<Gap>, me: string, to: int, ttl: int, n: nat, j: nat)
    requires n <= |recs| == |schedule| && j < |recs|
  {
    && p.Going? && |p.records| == n
    && (j < n ==> p.records[j] == Record(recs[j].slug, me, recs[j].token, schedule[j].now, schedule[j].now + ttl))
    && Kept(p.table, Current(p, recs, j), Clock(schedule, n, to))
  }

  lemma RenewingNext(t: Table, p: Progress, recs: seq<Record>, schedule: seq<Gap>, me: string, from: int, to: int, ttl: int, n: nat, j: nat)
    requires Prompt(t, recs, schedule, me, from, to, ttl) && n < |recs| && j < |recs|
    requires Renewing(p, recs, schedule, me, to, ttl, n, n) && Renewing(p, recs, schedule, me, to, ttl, n, j)
    ensures Renewing(Turn(p, schedule[n], Renew(recs[n].slug, me, recs[n].token, ttl)), recs, schedule, me, to, ttl, n + 1, j)
  {
    var g, r := schedule[n], Current(p, recs, j);
    GapOfSchedule(schedule, to, me, n);
    assert Fresh(t, recs[n], me, from, to, ttl) && Fresh(t, recs[j], me, from, to, ttl);
    TurnRenews(p, recs[n], me, Clock(schedule, n, to), g, ttl);
    if j != n {
      assert j < n ==> GapAfter(g, schedule[j].now);
      assert GapAfter(g, to);
      TurnKeeps(p, r, Clock(schedule, n, to), g, Renew(recs[n].slug, me, recs[n].token, ttl));
    }
  }

  ghost predicate AllRenewing(p: Progress, recs: seq<Record>, schedule: seq<Gap>, me: string, to: int, ttl: int, n: nat)
    requires n <= |recs| == |schedule|
  {
    forall j :: 0 <= j < |recs| ==> Renewing(p, recs, schedule, me, to, ttl, n, j)
  }

  lemma RoundStarts(t: Table, recs: seq<Record>, schedule: seq<Gap>, me: string, from: int, to: int, ttl: int)
    requires Prompt(t, recs, schedule, me, from, to, ttl)
    ensures AllRenewing(Going(t, []), recs, schedule, me, to, ttl, 0)
  {
    forall j | 0 <= j < |recs| ensures Renewing(Going(t, []), recs, schedule, me, to, ttl, 0, j) {
      assert Fresh(t, recs[j], me, from, to, ttl);
    }
  }

  lemma AllRenewingNext(t: Table, p: Progress, recs: seq<Record>, schedule: seq<Gap>, me: string, from: int, to: int, ttl: int, n: nat)
    requires Prompt(t, recs, schedule, me, from, to, ttl) && n < |recs|
    requires AllRenewing(p, recs, schedule, me, to, ttl, n)
    ensures AllRenewing(Turn(p, schedule[n], RenewOps(recs, ttl)[n]), recs, schedule, me, to, ttl, n + 1)
  {
    assert Fresh(t, recs[n], me, from, to, ttl);
    var q, next := Turn(p, schedule[n], RenewOps(recs, ttl)[n]), n + 1;
    forall j | 0 <= j < |recs| ensures Renewing(q, recs, schedule, me, to, ttl, next, j) {
      assert Renewing(p, recs, schedule, me, to, ttl, n, n) && Renewing(p, recs, schedule, me, to, ttl, n, j);
      RenewingNext(t, p, recs, schedule, me, from, to, ttl, n, j);
    }
  }

  /** A prompt round renews one record after the other, and keeps them all. */
  lemma {:induction false} RoundGoes(t: Table, recs: seq<Record>, schedule: seq<Gap>, me: string, from: int, to: int, ttl: int, n: nat)
    requires Prompt(t, recs, schedule, me, from, to, ttl) && n <= |recs|
    ensures AllRenewing(Turns(t, schedule, RenewOps(recs, ttl), n), recs, schedule, me, to, ttl, n)
  {
    if n == 0 {
      RoundStarts(t, recs, schedule, me, from, to, ttl);
    } else {
      RoundGoes(t, recs, schedule, me, from, to, ttl, n - 1);
      AllRenewingNext(t, Turns(t, schedule, RenewOps(recs, ttl), n - 1), recs, schedule, me, from, to, ttl, n - 1);
    }
  }

  // ---- all rounds ----

  /** After k rounds: the entry's slugs and tokens, each kept, and renewed no longer ago than in the last round. */
  ghost predicate Holds(p: Progress, recs: seq<Record>, rounds: seq<seq<Gap>>, me: string, entered: int, holding: int, ttl: int, k: nat)
    requires k <= |rounds|
  {
    && p.Going? && |p.records| == |recs|
    && forall j :: 0 <= j < |recs| ==>
         && p.records[j].slug == recs[j].slug && p.records[j].token == recs[j].token
         && Fresh(p.table, p.records[j], me, BeganAt(rounds, entered, k), EndedAt(rounds, holding, k), ttl)
  }

  lemma RoundIsPrompt(p: Progress, recs: seq<Record>, rounds: seq<seq<Gap>>, me: string, entered: int, holding: int, ttl: int, k: nat)
    requires k < |rounds| && Holds(p, recs, rounds, me, entered, holding, ttl, k)
    requires Interleaved(rounds, holding, me, |recs|) && InTime(rounds, entered, holding, ttl)
    ensures Prompt(p.table, p.records, rounds[k], me, BeganAt(rounds, entered, k), EndedAt(rounds, holding, k), ttl)
  {
    var schedule := rounds[k];
    assert Timely(rounds, entered, holding, ttl, k) && RoundFits(rounds, holding, me, k);
    forall j | 0 <= j < |schedule| ensures schedule[j].now < BeganAt(rounds, entered, k) + ttl {
      assert EndedAt(rounds, holding, k + 1) == schedule[|schedule| - 1].now;
      assert j < |schedule| - 1 ==> GapAfter(schedule[|schedule| - 1], schedule[j].now);
    }
  }

  lemma RoundKeepsHolding(p: Progress, recs: seq<Record>, rounds: seq<seq<Gap>>, me: string, entered: int, holding: int, ttl: int, k: nat)
    requires k < |rounds| && Holds(p, recs, rounds, me, entered, holding, ttl, k)
    requires Interleaved(rounds, holding, me, |recs|) && InTime(rounds, entered, holding, ttl)
    ensures Holds(Round(p, rounds[k], ttl), recs, rounds, me, entered, holding, ttl, k + 1)
  {
    var schedule, from, to := rounds[k], BeganAt(rounds, entered, k), EndedAt(rounds, holding, k);
    var q, size := Round(p, schedule, ttl), |recs|;
    RoundIsPrompt(p, recs, rounds, me, entered, holding, ttl, k);
    RoundGoes(p.table, p.records, schedule, me, from, to, ttl, size);
    assert Renewing(Turns(p.table, schedule, RenewOps(p.records, ttl), size), p.records, schedule, me, to, ttl, size, 0);
    assert RoundFits(rounds, holding, me, k);
    forall j | 0 <= j < size
      ensures q.records[j].slug == recs[j].slug && q.records[j].token == recs[j].token
      ensures Fresh(q.table, q.records[j], me, schedule[0].now, schedule[size - 1].now, ttl)
    {
      assert Renewing(Turns(p.table, schedule, RenewOps(p.records, ttl), size), p.records, schedule, me, to, ttl, size, j);
      assert 0 < j ==> GapAfter(schedule[j], schedule[0].now);
      assert j < size - 1 ==> GapAfter(schedule[size - 1], schedule[j].now);
    }
  }

  lemma HoldsAtEntry(t: Table, recs: seq<Record>, rounds: seq<seq<Gap>>, me: string, entered: int, holding: int, ttl: int)
    requires forall j :: 0 <= j < |recs| ==> Fresh(t, recs[j], me, entered, holding, ttl)
    ensures Holds(Going(t, recs), recs, rounds, me, entered, holding, ttl, 0)
  {}

  /** As long as rounds come in time, every one of them succeeds. */
  lemma {:induction false} RoundsSucceed(t: Table, recs: seq<Record>, rounds: seq<seq<Gap>>, me: string, entered: int, holding: int, ttl: int, k: nat)
    requires Interleaved(rounds, holding, me, |recs|) && InTime(rounds, entered, holding, ttl) && k <= |rounds|
    requires Holds(Going(t, recs), recs, rounds, me, entered, holding, ttl, 0)
    ensures Holds(AfterRounds(t, recs, rounds, ttl, k), recs, rounds, me, entered, holding, ttl, k)
  {
    if k == 0 {
      assert AfterRounds(t, recs, rounds, ttl, 0) == Going(t, recs);
    } else {
      var p := AfterRounds(t, recs, rounds, ttl, k - 1);
      RoundsSucceed(t, recs, rounds, me, entered, holding, ttl, k - 1);
      RoundKeepsHolding(p, recs, rounds, me, entered, holding, ttl, k - 1);
      assert AfterRounds(t, recs, rounds, ttl, k) == Round(p, rounds[k - 1], ttl);
    }
  }

  // ---- at every moment ----

  /** The table in round k, after n of its renewals and i of the others' calls that come before the next one. */
  function Moment(t: Table, recs: seq<Record>, rounds: seq<seq<Gap>>, ttl: int, k: nat, n: nat, i: nat): Table
    requires k < |rounds| && (forall x :: 0 <= x < |rounds| ==> |rounds[x]| == |recs|)
    requires n < |AfterRounds(t, recs, rounds, ttl, k).records| && i <= |rounds[k][n].calls|
  {
    var p := AfterRounds(t, recs, rounds, ttl, k);
    StateAt(Turns(p.table, rounds[k], RenewOps(p.records, ttl), n).table, rounds[k][n].calls, i)
  }

  lemma KeptIsLive(t: Table, r: Record, now: int, until: int)
    requires Kept(t, r, now) && now <= until < r.expiresAt
    ensures Owns(t, r) && LiveAt(t, r.slug, until)
  {}

  /** The lease is owned and live at every moment of a round, up to our next renewal. */
  lemma HeldInRound(p: Progress, schedule: seq<Gap>, me: string, from: int, to: int, ttl: int, n: nat, i: nat, j: nat)
    requires Prompt(p.table, p.records, schedule, me, from, to, ttl)
    requires n < |p.records| && i <= |schedule[n].calls| && j < |p.records|
    ensures var t := StateAt(Turns(p.table, schedule, RenewOps(p.records, ttl), n).table, schedule[n].calls, i);
            OwnedBy(t, p.records[j].slug, me, p.records[j].token) && LiveAt(t, p.records[j].slug, schedule[n].now)
  {
    var q, g := Turns(p.table, schedule, RenewOps(p.records, ttl), n), schedule[n];
    var r := Current(q, p.records, j);
    RoundGoes(p.table, p.records, schedule, me, from, to, ttl, n);
    assert Renewing(q, p.records, schedule, me, to, ttl, n, j);
    assert Fresh(p.table, p.records[j], me, from, to, ttl);
    assert j < n ==> from <= schedule[j].now by {
      assert GapAfter(schedule[j], to);
      assert from + ttl <= p.records[j].expiresAt <= to + ttl;
    }
    GapOfSchedule(schedule, to, me, n);
    GapOnRecord(q.table, r, Clock(schedule, n, to), g, i);
    var now := if i == 0 then Clock(schedule, n, to) else g.calls[i - 1].now;
    KeptIsLive(StateAt(q.table, g.calls, i), r, now, g.now);
  }

  lemma EntryIsFresh(t0: Table, entry: seq<Gap>, start: int, ops: seq<Op>, me: string, ttl: int)
    requires 0 < |ops| && 2 * |ops| <= |entry| && Acquires(ops, me) && Attempt(t0, entry, ops).Going?
    requires forall j :: 0 <= j < |ops| ==> ops[j].ttl == ttl
    requires Consistent(t0) && Foreign(entry, me) && Clocked(entry, start)
    ensures var p := Attempt(t0, entry, ops);
            && |p.records| == |ops|
            && forall j :: 0 <= j < |ops| ==> Fresh(p.table, p.records[j], me, entry[0].now, Clock(entry, |ops|, start), ttl)
  {
    AttemptGrantsAll(t0, entry, start, ops, me);
    AcquiredRecords(t0, entry, ops, me, |ops|);
    var p := Attempt(t0, entry, ops);
    forall j | 0 <= j < |ops| ensures Fresh(p.table, p.records[j], me, entry[0].now, Clock(entry, |ops|, start), ttl) {
      assert 0 < j ==> GapAfter(entry[j], entry[0].now);
      assert j < |ops| - 1 ==> GapAfter(entry[|ops| - 1], entry[j].now);
    }
  }

  /** An entry that succeeded, and rounds that each end within one ttl of the beginning of the one before,
      interleaved with whatever the others do. */
  ghost predicate Session(t0: Table, entry: seq<Gap>, start: int, ops: seq<Op>, me: string, ttl: int, rounds: seq<seq<Gap>>) {
    && 0 < |ops| && 2 * |ops| <= |entry| && Acquires(ops, me) && (forall j :: 0 <= j < |ops| ==> ops[j].ttl == ttl)
    && Consistent(t0) && Foreign(entry, me) && Clocked(entry, start) && Attempt(t0, entry, ops).Going?
    && Interleaved(rounds, Clock(entry, |ops|, start), me, |ops|)
    && InTime(rounds, entry[0].now, Clock(entry, |ops|, start), ttl)
  }

  /** Leased to the record's holder under its token, until that time at least. */
  ghost predicate HeldUntil(t: Table, r: Record, until: int) { Owns(t, r) && LiveAt(t, r.slug, until) }

  /** A neighbourhood renewed in time is held without a gap: at every moment of every round, whatever the others
      do, each slug is leased to us under the token of the entry, and until our next call, so that nobody else can
      be granted it. */
  lemma HeldWithoutGap(t0: Table, entry: seq<Gap>, start: int, ops: seq<Op>, me: string, ttl: int, rounds: seq<seq<Gap>>,
                       k: nat, n: nat, i: nat, j: nat)
    requires Session(t0, entry, start, ops, me, ttl, rounds)
    requires k < |rounds| && n < |rounds[k]| && i <= |rounds[k][n].calls| && j < |rounds[k]|
    ensures var p := Attempt(t0, entry, ops);
            && |p.records| == |rounds[k]| && |AfterRounds(p.table, p.records, rounds, ttl, k).records| == |p.records|
            && HeldUntil(Moment(p.table, p.records, rounds, ttl, k, n, i), p.records[j], rounds[k][n].now)
  {
    var p, entered, holding := Attempt(t0, entry, ops), entry[0].now, Clock(entry, |ops|, start);
    EntryIsFresh(t0, entry, start, ops, me, ttl);
    HoldsAtEntry(p.table, p.records, rounds, me, entered, holding, ttl);
    RoundsSucceed(p.table, p.records, rounds, me, entered, holding, ttl, k);
    var q := AfterRounds(p.table, p.records, rounds, ttl, k);
    RoundIsPrompt(q, p.records, rounds, me, entered, holding, ttl, k);
    HeldInRound(q, rounds[k], me, BeganAt(rounds, entered, k), EndedAt(rounds, holding, k), ttl, n, i, j);
    assert Fresh(p.table, p.records[j], me, entered, holding, ttl);
  }

  /** And so it is after the last round, until the first call of the leaving, if that comes within one ttl of the
      beginning of that round, or of the entry when there was none. */
  lemma HeldUntilExit(t0: Table, entry: seq<Gap>, start: int, ops: seq<Op>, me: string, ttl: int, rounds: seq<seq<Gap>>,
                      exit: Gap, i: nat, j: nat)
    requires Session(t0, entry, start, ops, me, ttl, rounds) && i <= |exit.calls| && j < |ops|
    requires ForeignCalls(exit.calls, me) && GapAfter(exit, EndedAt(rounds, Clock(entry, |ops|, start), |rounds|))
    requires exit.now < BeganAt(rounds, entry[0].now, |rounds|) + ttl
    ensures var p := Attempt(t0, entry, ops);
            && |p.records| == |ops|
            && var q := AfterRounds(p.table, p.records, rounds, ttl, |rounds|);
               q.Going? && HeldUntil(StateAt(q.table, exit.calls, i), p.records[j], exit.now)
  {
    var p, entered, holding := Attempt(t0, entry, ops), entry[0].now, Clock(entry, |ops|, start);
    EntryIsFresh(t0, entry, start, ops, me, ttl);
    HoldsAtEntry(p.table, p.records, rounds, me, entered, holding, ttl);
    RoundsSucceed(p.table, p.records, rounds, me, entered, holding, ttl, |rounds|);
    var q, before := AfterRounds(p.table, p.records, rounds, ttl, |rounds|), EndedAt(rounds, holding, |rounds|);
    GapOnRecord(q.table, q.records[j], before, exit, i);
    KeptIsLive(StateAt(q.table, exit.calls, i), q.records[j], if i == 0 then before else exit.calls[i - 1].now, exit.now);
    assert Fresh(p.table, p.records[j], me, entered, holding, ttl);
  }
}
