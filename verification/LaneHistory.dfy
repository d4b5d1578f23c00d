/** Lane locks read off the history of a run: which entries stand, for how long, and what every acquire,
    renewal and orphan pass comes to, by the times of the events themselves. */
module LaneHistory {
  import opened Collections
  import opened LaneLocks

  /** What acquire j was answered. */
  function AcquireAnswer(w0: World, events: seq<Event>, j: nat): Grant
    requires j < |events| && events[j].Acquire? && events[j].x in WorldAt(w0, events, j).execs
  {
    var (w, e) := (WorldAt(w0, events, j), events[j]);
    AcquireStep(w.store, w.execs[e.x].gateway, w.execs[e.x].task, e.lane, e.now).1
  }

  /** Whether renewal j, of a lock its execution holds, went through. */
  predicate RenewAnswer(w0: World, events: seq<Event>, j: nat)
    requires j < |events| && events[j].Renew?
  {
    var (w, e) := (WorldAt(w0, events, j), events[j]);
    e.x in w.execs && e.lock in w.execs[e.x].locks
    && RenewStep(w.store, w.execs[e.x].gateway, w.execs[e.x].task, e.lock, e.now).1
  }

  /** Event i was granted the lane, as an acquire or as a renewal. */
  predicate Extends(w0: World, events: seq<Event>, i: nat, lane: Lane)
    requires i < |events|
  {
    match events[i]
    case Acquire(x, l, _) => l == lane && x in WorldAt(w0, events, i).execs && AcquireAnswer(w0, events, i).Granted?
    case Renew(_, lock, _) => lock.lane == lane && RenewAnswer(w0, events, i)
    case _ => false
  }

  /** What takes away the entry that execution x last extended at time t: expiry in the bucket, x's own
      release, an orphan pass more than ten seconds later. */
  predicate Ends(e: Event, lane: Lane, x: Id, t: int) {
    || e == Expire(lane)
    || e == ReleaseAll(x)
    || (e.Orphans? && e.now - t > 10_000_000)
  }

  /** Before n, event i extended the lane, and nothing has extended it or ended that since. */
  ghost predicate Standing(w0: World, events: seq<Event>, n: nat, i: nat, lane: Lane)
    requires n <= |events|
  {
    && i < n && Extends(w0, events, i, lane)
    && forall k :: i < k < n ==> !Extends(w0, events, k, lane) && !Ends(events[k], lane, events[i].x, events[i].now)
  }

  function GrantCount(w0: World, events: seq<Event>, n: nat, lane: Lane): nat
    requires n <= |events|
  {
    if n == 0 then 0
    else
      GrantCount(w0, events, n - 1, lane)
      + if events[n - 1].Acquire? && Extends(w0, events, n - 1, lane) then 1 else 0
  }

  // ---- one event ----

  lemma {:induction false} ReleaseRemovesOwn(s: Store, gateway: string, task: string, locks: seq<Lock>, n: nat, lane: Lane)
    requires n <= |locks| && lane in s.lanes
    ensures var s', h := ReleaseSteps(s, gateway, task, locks, n), s.lanes[lane];
            && (lane !in s'.lanes <==> h.gateway == gateway && h.task == task && Lock(lane, h.token) in locks[..n])
            && (lane in s'.lanes ==> s'.lanes[lane] == h)
  {
    if n == 0 {
    } else {
      ReleaseRemovesOwn(s, gateway, task, locks, n - 1, lane);
      ReleaseKeepsFence(s, gateway, task, locks, n - 1);
      assert locks[..n] == locks[..n - 1] + [locks[n - 1]];
    }
  }

  /** The entry is x's, and no other execution holds a lock with its token. */
  ghost predicate EntryOf(w: World, lane: Lane, x: Id, t: int) {
    && lane in w.store.lanes && x in w.execs
    && var h := w.store.lanes[lane];
       && h.gateway == w.execs[x].gateway && h.task == w.execs[x].task && h.acquiredAt == Some(t)
       && Lock(lane, h.token) in w.execs[x].locks
       && forall y :: y in w.execs && Lock(lane, h.token) in w.execs[y].locks ==> y == x
  }

  /** The event extends the lane, in this world. */
  predicate Extending(w: World, e: Event, lane: Lane) {
    match e
    case Acquire(x, l, now) => l == lane && x in w.execs && AcquireStep(w.store, w.execs[x].gateway, w.execs[x].task, l, now).1.Granted?
    case Renew(x, lock, now) =>
      && lock.lane == lane && x in w.execs && lock in w.execs[x].locks
      && RenewStep(w.store, w.execs[x].gateway, w.execs[x].task, lock, now).1
    case _ => false
  }

  lemma EntryStays(w: World, e: Event, lane: Lane, x: Id, t: int)
    requires EntryOf(w, lane, x, t) && !Extending(w, e, lane)
    ensures var w' := Next(w, e);
            && (lane in w'.store.lanes <==> !Ends(e, lane, x, t))
            && (lane in w'.store.lanes ==>
                  && w'.store.lanes[lane] == w.store.lanes[lane]
                  && x in w'.execs && w'.execs[x].gateway == w.execs[x].gateway && w'.execs[x].task == w.execs[x].task
                  && Lock(lane, w.store.lanes[lane].token) in w'.execs[x].locks)
  {
    if e.ReleaseAll? && e.x in w.execs {
      var ex := w.execs[e.x];
      ReleaseRemovesOwn(w.store, ex.gateway, ex.task, ex.locks, |ex.locks|, lane);
      assert ex.locks[..|ex.locks|] == ex.locks;
    }
  }

  lemma NothingStays(w: World, e: Event, lane: Lane)
    requires lane !in w.store.lanes && !Extending(w, e, lane)
    ensures lane !in Next(w, e).store.lanes
  {
    if e.ReleaseAll? && e.x in w.execs {
      var ex := w.execs[e.x];
      ReleaseKeepsFence(w.store, ex.gateway, ex.task, ex.locks, |ex.locks|);
    }
  }

  /** The extending execution's entry, dated now; a renewal's too, if the entry was its own before. */
  lemma EntryWritten(w: World, e: Event, lane: Lane)
    requires Extending(w, e, lane)
    ensures var w' := Next(w, e);
            && lane in w'.store.lanes && e.x in w'.execs
            && var h := w'.store.lanes[lane];
               && h.gateway == w'.execs[e.x].gateway && h.task == w'.execs[e.x].task && h.acquiredAt == Some(e.now)
               && Lock(lane, h.token) in w'.execs[e.x].locks
  {}

  // ---- runs ----

  /** No two executions hold a lock on the lane with its entry's token. */
  lemma EntryHasOneHolder(w0: World, events: seq<Event>, n: nat, lane: Lane, x: Id, y: Id)
    requires Fresh(w0) && n <= |events|
    requires var w := WorldAt(w0, events, n);
             && lane in w.store.lanes && x in w.execs && y in w.execs
             && Lock(lane, w.store.lanes[lane].token) in w.execs[x].locks && Lock(lane, w.store.lanes[lane].token) in w.execs[y].locks
    ensures x == y
  {
    var lock := Lock(lane, WorldAt(w0, events, n).store.lanes[lane].token);
    EntryCarriesFence(w0, events, n, lane);
    if x != y {
      NoSplitBrain(w0, events, n, x, y, lock, lock);
    }
  }

  lemma OnlyHolder(w0: World, events: seq<Event>, n: nat, lane: Lane, x: Id)
    requires Fresh(w0) && n <= |events|
    requires var w := WorldAt(w0, events, n);
             lane in w.store.lanes && x in w.execs && Lock(lane, w.store.lanes[lane].token) in w.execs[x].locks
    ensures var w := WorldAt(w0, events, n);
            forall y :: y in w.execs && Lock(lane, w.store.lanes[lane].token) in w.execs[y].locks ==> y == x
  {
    var w := WorldAt(w0, events, n);
    forall y | y in w.execs && Lock(lane, w.store.lanes[lane].token) in w.execs[y].locks ensures y == x {
      EntryHasOneHolder(w0, events, n, lane, x, y);
    }
  }

  /** Extension i stands, and the lane's entry is what it wrote. */
  ghost predicate Holds(w0: World, events: seq<Event>, n: nat, i: nat, lane: Lane)
    requires n <= |events|
  {
    Standing(w0, events, n, i, lane) && EntryOf(WorldAt(w0, events, n), lane, events[i].x, events[i].now)
  }

  /** The lane's entry is what its standing extension wrote, and there is none where no extension stands. */
  ghost predicate Recorded(w0: World, events: seq<Event>, n: nat, lane: Lane)
    requires n <= |events|
  {
    if lane in WorldAt(w0, events, n).store.lanes then exists i: nat :: Holds(w0, events, n, i, lane)
    else forall i: nat :: !Standing(w0, events, n, i, lane)
  }

  lemma OneStanding(w0: World, events: seq<Event>, n: nat, i: nat, j: nat, lane: Lane)
    requires n <= |events| && Standing(w0, events, n, i, lane) && Standing(w0, events, n, j, lane)
    ensures i == j
  {}

  lemma StandsOn(w0: World, events: seq<Event>, n: nat, i: nat, lane: Lane)
    requires n < |events| && i < n && !Extends(w0, events, n, lane)
    ensures Standing(w0, events, n + 1, i, lane)
       <==> Standing(w0, events, n, i, lane) && !Ends(events[n], lane, events[i].x, events[i].now)
  {}

  lemma ExtensionRecorded(w0: World, events: seq<Event>, n: nat, lane: Lane)
    requires Fresh(w0) && n < |events| && Extends(w0, events, n, lane)
    ensures Recorded(w0, events, n + 1, lane)
  {
    var next := n + 1;
    var w, w', x := WorldAt(w0, events, n), WorldAt(w0, events, next), events[n].x;
    assert Extending(w, events[n], lane);
    EntryWritten(w, events[n], lane);
    OnlyHolder(w0, events, next, lane, x);
    assert Holds(w0, events, next, n, lane);
  }

  lemma EndRecorded(w0: World, events: seq<Event>, n: nat, i: nat, lane: Lane)
    requires n < |events| && !Extends(w0, events, n, lane) && Standing(w0, events, n, i, lane)
    requires Ends(events[n], lane, events[i].x, events[i].now) && lane !in WorldAt(w0, events, n + 1).store.lanes
    ensures Recorded(w0, events, n + 1, lane)
  {
    var next := n + 1;
    forall j: nat ensures !Standing(w0, events, next, j, lane) {
      if j < n && Standing(w0, events, next, j, lane) {
        StandsOn(w0, events, n, j, lane);
        OneStanding(w0, events, n, i, j, lane);
      }
    }
  }

  lemma StillEntryOf(w0: World, events: seq<Event>, n: nat, lane: Lane, x: Id, t: int)
    requires Fresh(w0) && n < |events| && EntryOf(WorldAt(w0, events, n), lane, x, t)
    requires !Extends(w0, events, n, lane) && !Ends(events[n], lane, x, t)
    ensures EntryOf(WorldAt(w0, events, n + 1), lane, x, t)
  {
    EntryStays(WorldAt(w0, events, n), events[n], lane, x, t);
    OnlyHolder(w0, events, n + 1, lane, x);
  }

  lemma StillHolds(w0: World, events: seq<Event>, n: nat, i: nat, lane: Lane)
    requires Fresh(w0) && n < |events| && !Extends(w0, events, n, lane) && Holds(w0, events, n, i, lane)
    requires !Ends(events[n], lane, events[i].x, events[i].now)
    ensures Holds(w0, events, n + 1, i, lane)
  {
    StandsOn(w0, events, n, i, lane);
    StillEntryOf(w0, events, n, lane, events[i].x, events[i].now);
  }

  lemma EntryRecorded(w0: World, events: seq<Event>, n: nat, lane: Lane)
    requires Fresh(w0) && n < |events| && !Extends(w0, events, n, lane)
    requires lane in WorldAt(w0, events, n).store.lanes && Recorded(w0, events, n, lane)
    ensures Recorded(w0, events, n + 1, lane)
  {
    var next := n + 1;
    var i: nat :| Holds(w0, events, n, i, lane);
    if Ends(events[n], lane, events[i].x, events[i].now) {
      EntryStays(WorldAt(w0, events, n), events[n], lane, events[i].x, events[i].now);
      EndRecorded(w0, events, n, i, lane);
    } else {
      StillHolds(w0, events, n, i, lane);
      assert Holds(w0, events, next, i, lane);
    }
  }

  lemma StartRecorded(w0: World, events: seq<Event>, lane: Lane)
    requires Fresh(w0)
    ensures Recorded(w0, events, 0, lane)
  {
    assert WorldAt(w0, events, 0) == w0;
  }

  lemma AbsenceRecorded(w0: World, events: seq<Event>, n: nat, lane: Lane)
    requires n < |events| && !Extends(w0, events, n, lane)
    requires lane !in WorldAt(w0, events, n).store.lanes && Recorded(w0, events, n, lane)
    ensures Recorded(w0, events, n + 1, lane)
  {
    var next := n + 1;
    NothingStays(WorldAt(w0, events, n), events[n], lane);
    forall j: nat ensures !Standing(w0, events, next, j, lane) {
      if j < n {
        StandsOn(w0, events, n, j, lane);
      }
    }
  }

  /** A lane has an entry exactly while an extension of it stands; the entry names the execution that
      extended it last, and the time of that. */
  lemma {:induction false} LanesAreRecorded(w0: World, events: seq<Event>, n: nat, lane: Lane)
    requires Fresh(w0) && n <= |events|
    ensures Recorded(w0, events, n, lane)
  {
    if n == 0 {
      StartRecorded(w0, events, lane);
    } else {
      var m := n - 1;
      LanesAreRecorded(w0, events, m, lane);
      if Extends(w0, events, m, lane) {
        ExtensionRecorded(w0, events, m, lane);
      } else if lane in WorldAt(w0, events, m).store.lanes {
        EntryRecorded(w0, events, m, lane);
      } else {
        AbsenceRecorded(w0, events, m, lane);
      }
    }
  }

  lemma StandingEntry(w0: World, events: seq<Event>, n: nat, i: nat, lane: Lane)
    requires Fresh(w0) && n <= |events| && Standing(w0, events, n, i, lane)
    ensures EntryOf(WorldAt(w0, events, n), lane, events[i].x, events[i].now)
  {
    LanesAreRecorded(w0, events, n, lane);
    var k: nat :| Holds(w0, events, n, k, lane);
    OneStanding(w0, events, n, i, k, lane);
  }

  lemma {:induction false} FenceIsGrantCount(w0: World, events: seq<Event>, n: nat, lane: Lane)
    requires Fresh(w0) && n <= |events|
    ensures FenceOf(WorldAt(w0, events, n).store, lane) == GrantCount(w0, events, n, lane)
  {
    if n == 0 {
      assert WorldAt(w0, events, 0) == w0;
    } else {
      FenceIsGrantCount(w0, events, n - 1, lane);
      FenceStep(w0, events, n - 1, lane);
    }
  }

  /** An acquire while an extension of the lane stands is refused for ten seconds, as a duplicate claim when
      the entry is its own gateway's for its own task; every other acquire is granted the next token. */
  lemma AcquireIff(w0: World, events: seq<Event>, j: nat, i: nat)
    requires Fresh(w0) && j < |events| && events[j].Acquire? && events[j].x in WorldAt(w0, events, j).execs
    ensures var (lane, x) := (events[j].lane, events[j].x);
            var (execs, answer) := (WorldAt(w0, events, j).execs, AcquireAnswer(w0, events, j));
            && ((forall k: nat :: !Standing(w0, events, j, k, lane)) ==>
                  answer == Granted(Lock(lane, GrantCount(w0, events, j, lane) + 1)))
            && (Standing(w0, events, j, i, lane) ==>
                  && events[i].x in execs
                  && var (mine, other) := (execs[x], execs[events[i].x]);
                     answer == if mine.gateway == other.gateway && mine.task == other.task then DuplicateClaim
                               else if events[j].now - events[i].now <= 10_000_000 then Contested
                               else Granted(Lock(lane, GrantCount(w0, events, j, lane) + 1)))
  {
    var lane := events[j].lane;
    FenceIsGrantCount(w0, events, j, lane);
    if Standing(w0, events, j, i, lane) {
      StandingEntry(w0, events, j, i, lane);
    } else {
      LanesAreRecorded(w0, events, j, lane);
    }
  }

  /** A renewal goes through exactly when some extension of the lane stands and the lock's token is that of
      the lane's latest grant. */
  lemma RenewIff(w0: World, events: seq<Event>, j: nat)
    requires Fresh(w0) && j < |events| && events[j].Renew? && events[j].x in WorldAt(w0, events, j).execs
    requires events[j].lock in WorldAt(w0, events, j).execs[events[j].x].locks
    ensures var lock := events[j].lock;
            RenewAnswer(w0, events, j) <==>
            (exists i: nat :: Standing(w0, events, j, i, lock.lane)) && lock.token == GrantCount(w0, events, j, lock.lane)
  {
    var lane := events[j].lock.lane;
    LanesAreRecorded(w0, events, j, lane);
    FenceIsGrantCount(w0, events, j, lane);
    EntryCarriesFence(w0, events, j, lane);
  }

  /** An orphan pass removes exactly the entries last extended more than ten seconds before. */
  lemma OrphanedIff(w0: World, events: seq<Event>, j: nat, i: nat, lane: Lane)
    requires Fresh(w0) && j < |events| && events[j].Orphans? && Standing(w0, events, j, i, lane)
    ensures lane in WorldAt(w0, events, j).store.lanes
    ensures lane !in WorldAt(w0, events, j + 1).store.lanes <==> events[j].now - events[i].now > 10_000_000
  {
    StandingEntry(w0, events, j, i, lane);
    EntryStays(WorldAt(w0, events, j), events[j], lane, events[i].x, events[i].now);
  }

  // ---- ten seconds of safety ----

  predicate Timed(e: Event) { e.Acquire? || e.Renew? || e.Orphans? }

  ghost predicate MonotoneClock(events: seq<Event>) {
    forall i, j :: 0 <= i < j < |events| && Timed(events[i]) && Timed(events[j]) ==> events[i].now <= events[j].now
  }

  /** Between i and n the lane does not expire in the bucket, and event i's execution does not release. */
  ghost predicate LeftAlone(events: seq<Event>, i: nat, n: nat, lane: Lane)
    requires i < n <= |events| && Timed(events[i]) && !events[i].Orphans?
  {
    forall k :: i < k < n ==> events[k] != Expire(lane) && events[k] != ReleaseAll(events[i].x)
  }

  /** Up to here nothing later than ten seconds after i has come. */
  ghost predicate Within(events: seq<Event>, i: nat, n: nat)
    requires i < n <= |events| && Timed(events[i])
  {
    forall k :: i < k < n && Timed(events[k]) ==> events[k].now <= events[i].now + 10_000_000
  }

  lemma StillHeld(w0: World, events: seq<Event>, i: nat, n: nat, s: nat, lane: Lane)
    requires Fresh(w0) && MonotoneClock(events) && i < n < |events| && Extends(w0, events, i, lane)
    requires LeftAlone(events, i, n + 1, lane) && Within(events, i, n + 1)
    requires Standing(w0, events, n, s, lane) && i <= s && events[s].x == events[i].x
    ensures exists s': nat :: Standing(w0, events, n + 1, s', lane) && i <= s' && events[s'].x == events[i].x
  {
    var next := n + 1;
    assert events[i].now <= events[s].now;
    if Extends(w0, events, n, lane) {
      if events[n].Acquire? {
        AcquireIff(w0, events, n, s);
      } else {
        RenewerIsHolder(w0, events, n, s, lane);
      }
      assert Standing(w0, events, next, n, lane);
    } else {
      StandsOn(w0, events, n, s, lane);
    }
  }

  /** It is the execution of the standing extension that can renew. */
  lemma RenewerIsHolder(w0: World, events: seq<Event>, n: nat, s: nat, lane: Lane)
    requires Fresh(w0) && n < |events| && events[n].Renew? && Extends(w0, events, n, lane) && Standing(w0, events, n, s, lane)
    ensures events[n].x == events[s].x
  {
    StandingEntry(w0, events, n, s, lane);
  }

  lemma {:induction false} HeldForTenSeconds(w0: World, events: seq<Event>, i: nat, n: nat, lane: Lane) returns (s: nat)
    requires Fresh(w0) && MonotoneClock(events) && i < n <= |events| && Extends(w0, events, i, lane)
    requires LeftAlone(events, i, n, lane) && Within(events, i, n)
    ensures Standing(w0, events, n, s, lane) && i <= s && events[s].x == events[i].x
  {
    if n == i + 1 {
      s := i;
    } else {
      var before := HeldForTenSeconds(w0, events, i, n - 1, lane);
      StillHeld(w0, events, i, n - 1, before, lane);
      s :| Standing(w0, events, n, s, lane) && i <= s && events[s].x == events[i].x;
    }
  }

  /** A lane granted or renewed at time t is for ten seconds neither granted to another task or gateway nor
      removed by an orphan pass, unless it expires in the bucket or its execution releases. */
  lemma LiveLaneStands(w0: World, events: seq<Event>, i: nat, n: nat, lane: Lane)
    requires Fresh(w0) && MonotoneClock(events) && i < n < |events| && Extends(w0, events, i, lane)
    requires LeftAlone(events, i, n, lane) && Timed(events[n]) && events[n].now <= events[i].now + 10_000_000
    ensures events[n].Acquire? && events[n].lane == lane && events[n].x in WorldAt(w0, events, n).execs ==>
              AcquireAnswer(w0, events, n) in {DuplicateClaim, Contested}
    ensures events[n].Orphans? ==> lane in WorldAt(w0, events, n + 1).store.lanes
  {
    assert Within(events, i, n);
    var s := HeldForTenSeconds(w0, events, i, n, lane);
    assert events[i].now <= events[s].now;
    if events[n].Acquire? && events[n].lane == lane && events[n].x in WorldAt(w0, events, n).execs {
      AcquireIff(w0, events, n, s);
    } else if events[n].Orphans? {
      OrphanedIff(w0, events, n, s, lane);
    }
  }

  /** An entry whose time does not parse is reclaimed by whoever asks, and no orphan pass removes it. */
  lemma UnreadableEntry(s: Store, gateway: string, task: string, lane: Lane, now: int)
    requires lane in s.lanes && s.lanes[lane].acquiredAt.None?
    requires s.lanes[lane].gateway != gateway || s.lanes[lane].task != task
    ensures AcquireStep(s, gateway, task, lane, now).1.Granted?
    ensures lane in Sweep(s, now).lanes && Sweep(s, now).lanes[lane] == s.lanes[lane]
  {}
}
