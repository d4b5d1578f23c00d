/** Lane locks over two key-value buckets: RESOURCE_LANES, whose entries expire or are swept away, and
    FENCING_TOKENS, whose entries stay. An acquire, a renewal, a release of all lanes and a commit check
    are each one step; module LaneRequests takes the acquire apart. */
module LaneLocks {
  import opened Collections

  type Lane = string

  /** Times are in microseconds. */
  const LANE_TTL := 10_000_000

  /** acquiredAt is None when the stored timestamp does not parse. */
  datatype Holder = Holder(gateway: string, task: string, token: int, acquiredAt: Option<int>)

  datatype Store = Store(lanes: map<Lane, Holder>, fence: map<Lane, int>)

  const EMPTY := Store(map[], map[])

  /** What an execution remembers of a lane it was granted. */
  datatype Lock = Lock(lane: Lane, token: int)

  datatype Grant = Granted(lock: Lock) | DuplicateClaim | Contested

  datatype Check = Passed | TokenMismatch | ReadFailed

  function NextToken(s: Store, lane: Lane): int {
    if lane in s.fence then s.fence[lane] + 1 else 1
  }

  predicate Stale(h: Holder, now: int) {
    h.acquiredAt.Some? ==> now - h.acquiredAt.value > LANE_TTL
  }

  function AcquireStep(s: Store, gateway: string, task: string, lane: Lane, now: int): (Store, Grant) {
    if lane in s.lanes && s.lanes[lane].gateway == gateway && s.lanes[lane].task == task then (s, DuplicateClaim)
    else if lane in s.lanes && !Stale(s.lanes[lane], now) then (s, Contested)
    else
      var token := NextToken(s, lane);
      (Store(s.lanes[lane := Holder(gateway, task, token, Some(now))], s.fence[lane := token]),
       Granted(Lock(lane, token)))
  }

  predicate Carries(s: Store, lock: Lock) {
    lock.lane in s.lanes && s.lanes[lock.lane].token == lock.token
  }

  /** The renewal looks at the token only, and writes its own gateway and task. */
  function RenewStep(s: Store, gateway: string, task: string, lock: Lock, now: int): (Store, bool) {
    if Carries(s, lock)
    then (s.(lanes := s.lanes[lock.lane := Holder(gateway, task, lock.token, Some(now))]), true)
    else (s, false)
  }

  function ReleaseStep(s: Store, gateway: string, task: string, lock: Lock): Store {
    if Carries(s, lock) && s.lanes[lock.lane].gateway == gateway && s.lanes[lock.lane].task == task
    then s.(lanes := s.lanes - {lock.lane})
    else s
  }

  function ReleaseSteps(s: Store, gateway: string, task: string, locks: seq<Lock>, n: nat): Store
    requires n <= |locks|
  {
    if n == 0 then s else ReleaseStep(ReleaseSteps(s, gateway, task, locks, n - 1), gateway, task, locks[n - 1])
  }

  predicate Current(s: Store, lock: Lock) {
    lock.lane in s.fence && s.fence[lock.lane] == lock.token
  }

  /** One pass of the orphan detector. An entry it cannot read it leaves alone. */
  function Sweep(s: Store, now: int): Store {
    s.(lanes := map lane | lane in s.lanes && !(s.lanes[lane].acquiredAt.Some? && Stale(s.lanes[lane], now)) :: s.lanes[lane])
  }

  // ---- the code ----

  class LaneBuckets {
    var lanes: map<Lane, Holder>
    var fence: map<Lane, int>

    function View(): Store
      reads this
    {
      Store(lanes, fence)
    }

    constructor ()
      ensures View() == EMPTY
    {
      lanes := map[];
      fence := map[];
    }

    /** The scan, key by key. */
    method DetectOrphans(now: int) returns (orphans: set<Lane>)
      modifies this
      ensures View() == Sweep(old(View()), now)
      ensures orphans == old(lanes).Keys - lanes.Keys
    {
      var keys := lanes.Keys;
      orphans := {};
      while keys != {}
        invariant keys <= old(lanes).Keys && fence == old(fence)
        invariant orphans == old(lanes).Keys - lanes.Keys
        invariant forall l :: l in keys ==> l in lanes
        invariant forall l :: l in lanes ==> l in old(lanes) && lanes[l] == old(lanes)[l]
        invariant forall l :: l in old(lanes) && l !in keys ==>
                    (l in lanes <==> !(old(lanes)[l].acquiredAt.Some? && Stale(old(lanes)[l], now)))
        decreases keys
      {
        var key :| key in keys;
        keys := keys - {key};
        var h := lanes[key];
        if h.acquiredAt.Some? && now - h.acquiredAt.value > LANE_TTL {
          orphans := orphans + {key};
          lanes := lanes - {key};
        }
      }
      assert lanes == Sweep(old(View()), now).lanes;
    }
  }

  class LaneLockedExecution {
    const buckets: LaneBuckets
    const gateway: string
    const task: string
    var acquired: seq<Lock>

    constructor (buckets: LaneBuckets, gateway: string, task: string)
      ensures this.buckets == buckets && this.gateway == gateway && this.task == task && acquired == []
    {
      this.buckets := buckets;
      this.gateway := gateway;
      this.task := task;
      acquired := [];
    }

    method AcquireLane(lane: Lane, now: int) returns (g: Grant)
      modifies buckets, this
      ensures (buckets.View(), g) == AcquireStep(old(buckets.View()), gateway, task, lane, now)
      ensures acquired == if g.Granted? then old(acquired) + [g.lock] else old(acquired)
    {
      if lane in buckets.lanes {
        var h := buckets.lanes[lane];
        if h.gateway == gateway && h.task == task {
          return DuplicateClaim;
        }
        if h.acquiredAt.Some? && now - h.acquiredAt.value <= LANE_TTL {
          return Contested;
        }
        buckets.lanes := buckets.lanes - {lane};
      }
      var token := if lane in buckets.fence then buckets.fence[lane] + 1 else 1;
      buckets.lanes := buckets.lanes[lane := Holder(gateway, task, token, Some(now))];
      assert buckets.lanes == old(buckets.lanes)[lane := Holder(gateway, task, token, Some(now))];
      buckets.fence := buckets.fence[lane := token];
      acquired := acquired + [Lock(lane, token)];
      return Granted(Lock(lane, token));
    }

    method RenewLaneLock(lock: Lock, now: int) returns (ok: bool)
      modifies buckets
      ensures (buckets.View(), ok) == RenewStep(old(buckets.View()), gateway, task, lock, now)
    {
      if lock.lane !in buckets.lanes {
        return false;
      }
      if buckets.lanes[lock.lane].token != lock.token {
        return false;
      }
      buckets.lanes := buckets.lanes[lock.lane := Holder(gateway, task, lock.token, Some(now))];
      return true;
    }

    method ReleaseAllLanes()
      modifies buckets, this
      ensures buckets.View() == ReleaseSteps(old(buckets.View()), gateway, task, old(acquired), |old(acquired)|)
      ensures acquired == []
    {
      for i := 0 to |acquired|
        invariant acquired == old(acquired)
        invariant buckets.View() == ReleaseSteps(old(buckets.View()), gateway, task, acquired, i)
      {
        var lock := acquired[i];
        if lock.lane in buckets.lanes {
          var h := buckets.lanes[lock.lane];
          if h.gateway == gateway && h.task == task && h.token == lock.token {
            buckets.lanes := buckets.lanes - {lock.lane};
          }
        }
      }
      acquired := [];
    }

    ghost predicate FirstProblem(i: nat)
      reads this, buckets
      requires i < |acquired|
    {
      && !Current(buckets.View(), acquired[i])
      && forall j :: 0 <= j < i ==> Current(buckets.View(), acquired[j])
    }

    /** The check made after the agent function returned, before completion is published. */
    method CommitCheck() returns (c: Check)
      ensures c.Passed? <==> forall i :: 0 <= i < |acquired| ==> Current(buckets.View(), acquired[i])
      ensures !c.Passed? ==>
                exists i :: 0 <= i < |acquired| && FirstProblem(i) && (c.ReadFailed? <==> acquired[i].lane !in buckets.fence)
    {
      for i := 0 to |acquired|
        invariant forall j :: 0 <= j < i ==> Current(buckets.View(), acquired[j])
      {
        if acquired[i].lane !in buckets.fence {
          assert FirstProblem(i);
          return ReadFailed;
        }
        if buckets.fence[acquired[i].lane] != acquired[i].token {
          assert FirstProblem(i);
          return TokenMismatch;
        }
      }
      return Passed;
    }
  }

  // ---- runs of many executions ----

  type Id = nat

  datatype Execution = Execution(gateway: string, task: string, locks: seq<Lock>)

  datatype World = World(store: Store, execs: map<Id, Execution>)

  datatype Event =
    | Acquire(x: Id, lane: Lane, now: int)
    | Renew(x: Id, lock: Lock, now: int)
    | ReleaseAll(x: Id)
    | Expire(lane: Lane)
    | Orphans(now: int)

  /** An event of an unknown execution, or the renewal of a lock it does not hold, is no event. */
  function Next(w: World, e: Event): World {
    match e
    case Acquire(x, lane, now) =>
      if x !in w.execs then w
      else
        var ex := w.execs[x];
        var (s, g) := AcquireStep(w.store, ex.gateway, ex.task, lane, now);
        World(s, if g.Granted? then w.execs[x := ex.(locks := ex.locks + [g.lock])] else w.execs)
    case Renew(x, lock, now) =>
      if x !in w.execs || lock !in w.execs[x].locks then w
      else w.(store := RenewStep(w.store, w.execs[x].gateway, w.execs[x].task, lock, now).0)
    case ReleaseAll(x) =>
      if x !in w.execs then w
      else
        var ex := w.execs[x];
        World(ReleaseSteps(w.store, ex.gateway, ex.task, ex.locks, |ex.locks|), w.execs[x := ex.(locks := [])])
    case Expire(lane) => w.(store := w.store.(lanes := w.store.lanes - {lane}))
    case Orphans(now) => w.(store := Sweep(w.store, now))
  }

  function WorldAt(w0: World, events: seq<Event>, n: nat): World
    requires n <= |events|
  {
    if n == 0 then w0 else Next(WorldAt(w0, events, n - 1), events[n - 1])
  }

  /** Nothing stored, nothing held. */
  ghost predicate Fresh(w0: World) {
    w0.store == EMPTY && forall x :: x in w0.execs ==> w0.execs[x].locks == []
  }

  function FenceOf(s: Store, lane: Lane): int {
    if lane in s.fence then s.fence[lane] else 0
  }

  /** Event i grants lane to execution x under the given token. */
  predicate GrantsTo(w0: World, events: seq<Event>, i: nat, x: Id, lane: Lane, token: int)
    requires i < |events|
  {
    && events[i].Acquire? && events[i].x == x && events[i].lane == lane
    && var w := WorldAt(w0, events, i);
       && x in w.execs
       && AcquireStep(w.store, w.execs[x].gateway, w.execs[x].task, lane, events[i].now).1 == Granted(Lock(lane, token))
  }

  predicate GrantsLane(w0: World, events: seq<Event>, i: nat, lane: Lane)
    requires i < |events|
  {
    events[i].Acquire? && GrantsTo(w0, events, i, events[i].x, lane, NextToken(WorldAt(w0, events, i).store, lane))
  }

  /** This grant is the last one of its lane before n. */
  ghost predicate LatestGrant(w0: World, events: seq<Event>, n: nat, i: nat, x: Id, lock: Lock)
    requires i < n <= |events|
  {
    && GrantsTo(w0, events, i, x, lock.lane, lock.token)
    && forall k :: i < k < n ==> !GrantsLane(w0, events, k, lock.lane)
  }

  lemma {:induction false} ReleaseKeepsFence(s: Store, gateway: string, task: string, locks: seq<Lock>, n: nat)
    requires n <= |locks|
    ensures var s' := ReleaseSteps(s, gateway, task, locks, n);
            && s'.fence == s.fence
            && forall l :: l in s'.lanes ==> l in s.lanes && s'.lanes[l] == s.lanes[l]
  {
    if n == 0 {
    } else {
      ReleaseKeepsFence(s, gateway, task, locks, n - 1);
    }
  }

  /** Only a grant moves a lane's fence, and by one: expiry, sweeps, renewals and releases leave it. */
  lemma FenceStep(w0: World, events: seq<Event>, n: nat, lane: Lane)
    requires n < |events|
    ensures FenceOf(WorldAt(w0, events, n + 1).store, lane)
         == FenceOf(WorldAt(w0, events, n).store, lane) + if GrantsLane(w0, events, n, lane) then 1 else 0
  {
    if events[n].ReleaseAll? && events[n].x in WorldAt(w0, events, n).execs {
      var w := WorldAt(w0, events, n);
      var ex := w.execs[events[n].x];
      ReleaseKeepsFence(w.store, ex.gateway, ex.task, ex.locks, |ex.locks|);
    }
  }

  /** Between i and n the fence stood still exactly when nothing was granted in between. */
  lemma {:induction false} FenceStandsIffNoGrant(w0: World, events: seq<Event>, i: nat, n: nat, lane: Lane)
    requires i <= n <= |events|
    ensures FenceOf(WorldAt(w0, events, i).store, lane) <= FenceOf(WorldAt(w0, events, n).store, lane)
    ensures FenceOf(WorldAt(w0, events, i).store, lane) == FenceOf(WorldAt(w0, events, n).store, lane)
       <==> forall k :: i <= k < n ==> !GrantsLane(w0, events, k, lane)
  {
    if i == n {
    } else {
      FenceStandsIffNoGrant(w0, events, i, n - 1, lane);
      FenceStep(w0, events, n - 1, lane);
    }
  }

  /** A lane entry always carries the lane's fence, whatever expired, was swept or was reclaimed. */
  lemma {:induction false} EntryCarriesFence(w0: World, events: seq<Event>, n: nat, lane: Lane)
    requires Fresh(w0) && n <= |events|
    ensures var s := WorldAt(w0, events, n).store;
            lane in s.lanes ==> lane in s.fence && s.lanes[lane].token == s.fence[lane]
  {
    if n == 0 {
    } else {
      EntryCarriesFence(w0, events, n - 1, lane);
      var w, e := WorldAt(w0, events, n - 1), events[n - 1];
      if e.ReleaseAll? && e.x in w.execs {
        var ex := w.execs[e.x];
        ReleaseKeepsFence(w.store, ex.gateway, ex.task, ex.locks, |ex.locks|);
      }
    }
  }

  /** Every lock an execution holds was granted to that very execution. */
  lemma {:induction false} LocksComeFromGrants(w0: World, events: seq<Event>, n: nat, x: Id, lock: Lock)
    requires Fresh(w0) && n <= |events|
    requires x in WorldAt(w0, events, n).execs && lock in WorldAt(w0, events, n).execs[x].locks
    ensures exists i :: 0 <= i < n && GrantsTo(w0, events, i, x, lock.lane, lock.token)
  {
    assert n != 0;
    var w, e := WorldAt(w0, events, n - 1), events[n - 1];
    assert x in w.execs;
    if lock in w.execs[x].locks {
      LocksComeFromGrants(w0, events, n - 1, x, lock);
    } else {
      assert GrantsTo(w0, events, n - 1, x, lock.lane, lock.token);
    }
  }

  /** A lock is current exactly when its grant is the latest grant of its lane. */
  lemma CurrentIffLatestGrant(w0: World, events: seq<Event>, n: nat, x: Id, lock: Lock)
    requires Fresh(w0) && n <= |events|
    requires x in WorldAt(w0, events, n).execs && lock in WorldAt(w0, events, n).execs[x].locks
    ensures Current(WorldAt(w0, events, n).store, lock)
       <==> exists i :: 0 <= i < n && LatestGrant(w0, events, n, i, x, lock)
  {
    LocksComeFromGrants(w0, events, n, x, lock);
    forall i | 0 <= i < n && GrantsTo(w0, events, i, x, lock.lane, lock.token)
      ensures Current(WorldAt(w0, events, n).store, lock) <==> LatestGrant(w0, events, n, i, x, lock)
    {
      FenceStandsIffNoGrant(w0, events, i + 1, n, lock.lane);
      assert FenceOf(WorldAt(w0, events, i + 1).store, lock.lane) == lock.token;
      assert 1 <= lock.token by { FenceStandsIffNoGrant(w0, events, 0, i, lock.lane); }
    }
  }

  /** Fenced commit: an execution passes the commit check exactly when it is still the latest grantee of
      every lane it holds. Passing takes no heed of expiry: a lapsed but unclaimed lease still commits. */
  lemma CommitIffLatestGrantee(w0: World, events: seq<Event>, n: nat, x: Id)
    requires Fresh(w0) && n <= |events| && x in WorldAt(w0, events, n).execs
    ensures var w := WorldAt(w0, events, n);
            (forall lock :: lock in w.execs[x].locks ==> Current(w.store, lock))
            <==> (forall lock :: lock in w.execs[x].locks ==>
                    exists i :: 0 <= i < n && LatestGrant(w0, events, n, i, x, lock))
  {
    forall lock | lock in WorldAt(w0, events, n).execs[x].locks
      ensures Current(WorldAt(w0, events, n).store, lock)
         <==> exists i :: 0 <= i < n && LatestGrant(w0, events, n, i, x, lock)
    {
      CurrentIffLatestGrant(w0, events, n, x, lock);
    }
  }

  /** So two executions that share a lane can never both pass. */
  lemma NoSplitBrain(w0: World, events: seq<Event>, n: nat, x: Id, y: Id, lx: Lock, ly: Lock)
    requires Fresh(w0) && n <= |events| && x != y && lx.lane == ly.lane
    requires x in WorldAt(w0, events, n).execs && lx in WorldAt(w0, events, n).execs[x].locks
    requires y in WorldAt(w0, events, n).execs && ly in WorldAt(w0, events, n).execs[y].locks
    ensures !Current(WorldAt(w0, events, n).store, lx) || !Current(WorldAt(w0, events, n).store, ly)
  {
    CurrentIffLatestGrant(w0, events, n, x, lx);
    CurrentIffLatestGrant(w0, events, n, y, ly);
    if Current(WorldAt(w0, events, n).store, lx) && Current(WorldAt(w0, events, n).store, ly) {
      var i :| 0 <= i < n && LatestGrant(w0, events, n, i, x, lx);
      var j :| 0 <= j < n && LatestGrant(w0, events, n, j, y, ly);
      assert GrantsLane(w0, events, i, lx.lane) && GrantsLane(w0, events, j, lx.lane);
      assert false;
    }
  }

  lemma {:induction false} ReleaseDeletesOnlyOwn(s: Store, gateway: string, task: string, locks: seq<Lock>, n: nat, lane: Lane)
    requires n <= |locks| && lane in s.lanes && lane !in ReleaseSteps(s, gateway, task, locks, n).lanes
    ensures exists lock :: lock in locks && lock.lane == lane && lock.token == s.lanes[lane].token
  {
    assert n != 0;
    ReleaseKeepsFence(s, gateway, task, locks, n - 1);
    if lane !in ReleaseSteps(s, gateway, task, locks, n - 1).lanes {
      ReleaseDeletesOnlyOwn(s, gateway, task, locks, n - 1, lane);
    } else {
      assert locks[n - 1] in locks;
    }
  }

  /** A release deletes a lane entry only if the releasing execution is the latest grantee of that lane. */
  lemma ReleaseSparesOthers(w0: World, events: seq<Event>, n: nat, lane: Lane)
    requires Fresh(w0) && n < |events| && events[n].ReleaseAll?
    requires lane in WorldAt(w0, events, n).store.lanes && lane !in WorldAt(w0, events, n + 1).store.lanes
    ensures exists lock: Lock, i: nat :: lock.lane == lane && i < n && LatestGrant(w0, events, n, i, events[n].x, lock)
  {
    var w, x := WorldAt(w0, events, n), events[n].x;
    var ex := w.execs[x];
    ReleaseDeletesOnlyOwn(w.store, ex.gateway, ex.task, ex.locks, |ex.locks|, lane);
    var lock :| lock in ex.locks && lock.lane == lane && lock.token == w.store.lanes[lane].token;
    EntryCarriesFence(w0, events, n, lane);
    CurrentIffLatestGrant(w0, events, n, x, lock);
  }
}
