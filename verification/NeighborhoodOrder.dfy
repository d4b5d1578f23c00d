/** In which order a neighbourhood is acquired, and when an attempt succeeds. */
module NeighborhoodOrder {
  import opened Collections
  import opened LeaseProtocol
  import opened NeighborhoodLocks

  // ---- the order of the targets ----

  lemma {:induction false} LeqTotal(a: string, b: string)
    ensures Leq(a, b) || Leq(b, a)
  {
    if a == [] || b == [] {
      assert Leq(a, b) || Leq(b, a);
    } else {
      LeqTotal(a[1..], b[1..]);
    }
  }

  lemma {:induction false} LeqTransitive(a: string, b: string, c: string)
    requires Leq(a, b) && Leq(b, c)
    ensures Leq(a, c)
  {
    if a == [] {
      assert Leq(a, c);
    } else {
      if a[0] == b[0] && b[0] == c[0] {
        LeqTransitive(a[1..], b[1..], c[1..]);
      }
    }
  }

  /** a and b differ for the first time at place i, and a has the smaller character there. */
  predicate SmallerAt(a: string, b: string, i: nat) { i < |a| && i < |b| && a[..i] == b[..i] && a[i] < b[i] }

  /** The order of strings: by the first place where they differ, a beginning before the whole. */
  lemma {:induction false} LeqIff(a: string, b: string)
    ensures Leq(a, b) <==> a <= b || exists i: nat :: SmallerAt(a, b, i)
  {
    if a == [] || b == [] {
    } else if a[0] != b[0] {
      assert a[0] < b[0] ==> SmallerAt(a, b, 0);
      forall i: nat | SmallerAt(a, b, i) ensures a[0] < b[0] {
        assert i != 0 ==> a[..i][0] == b[..i][0];
      }
    } else {
      LeqIff(a[1..], b[1..]);
      assert a == [a[0]] + a[1..] && b == [b[0]] + b[1..];
      if i: nat :| SmallerAt(a[1..], b[1..], i) {
        assert a[..i + 1] == [a[0]] + a[1..][..i] && b[..i + 1] == [b[0]] + b[1..][..i];
        assert SmallerAt(a, b, i + 1);
      }
      if i: nat :| SmallerAt(a, b, i) {
        assert a[1..][..i - 1] == a[..i][1..] && b[1..][..i - 1] == b[..i][1..];
        assert SmallerAt(a[1..], b[1..], i - 1);
      }
    }
  }

  lemma LeqOrders()
    ensures TotalPreorder(Leq)
  {
    forall a, b ensures Leq(a, b) || Leq(b, a) {
      LeqTotal(a, b);
    }
    forall a, b, c | Leq(a, b) && Leq(b, c) ensures Leq(a, c) {
      LeqTransitive(a, b, c);
    }
  }

  /** Behind the slug itself come its neighbours, sorted, as often as they are listed. */
  lemma NeighborsComeSorted(slug: Slug, neighbors: seq<Slug>)
    ensures Targets(slug, neighbors)[0] == slug
    ensures SortedBy(Targets(slug, neighbors)[1..], Leq)
    ensures multiset(Targets(slug, neighbors)[1..]) == multiset(Filter(neighbors, s => s != slug))
    ensures forall s :: s in Targets(slug, neighbors)[1..] <==> s in neighbors && s != slug
  {
    LeqOrders();
    var others := Filter(neighbors, s => s != slug);
    SortBySorts(others, Leq);
    MultisetMembers(SortBy(others, Leq), others);
    assert Targets(slug, neighbors)[1..] == SortBy(others, Leq);
  }

  /** The targets as a whole are acquired in sorted order if and only if the slug is not above any of its
      neighbours. */
  lemma TargetsSortedIff(slug: Slug, neighbors: seq<Slug>)
    ensures SortedBy(Targets(slug, neighbors), Leq) <==> forall n :: n in neighbors && n != slug ==> Leq(slug, n)
  {
    NeighborsComeSorted(slug, neighbors);
    var targets := Targets(slug, neighbors);
    if SortedBy(targets, Leq) {
      forall n | n in neighbors && n != slug ensures Leq(slug, n) {
        var i :| 0 <= i < |targets[1..]| && targets[1..][i] == n;
        assert Leq(targets[0], targets[i + 1]);
      }
    }
    if forall n :: n in neighbors && n != slug ==> Leq(slug, n) {
      forall i, j | 0 <= i < j < |targets| ensures Leq(targets[i], targets[j]) {
        assert targets[j] == targets[1..][j - 1] && targets[j] in targets[1..];
        if i > 0 {
          assert Leq(targets[1..][i - 1], targets[1..][j - 1]);
        }
      }
    }
  }

  // ---- an attempt that nobody contends ----

  /** Nobody else calls, the clock runs on, and all our acquires come before the first lease's expiry. */
  ghost predicate Undisturbed(schedule: seq<Gap>, ops: seq<Op>, ttl: int) {
    && 0 < |ops| <= |schedule|
    && (forall i :: 0 <= i < |schedule| ==> schedule[i].calls == [])
    && (forall i :: 0 <= i < |ops| ==> schedule[0].now <= schedule[i].now < schedule[0].now + ttl)
    && (forall i :: 0 <= i < |ops| ==> ops[i].TryAcquire? && ops[i].ttl == ttl)
  }

  /** No target is leased to anybody when its turn comes. */
  ghost predicate AllFree(t0: Table, schedule: seq<Gap>, ops: seq<Op>)
    requires |ops| <= |schedule|
  {
    forall i :: 0 <= i < |ops| ==> !LiveAt(t0, ops[i].slug, schedule[i].now)
  }

  ghost predicate Taken(ops: seq<Op>, n: nat, slug: Slug)
    requires n <= |ops|
  {
    exists i :: 0 <= i < n && ops[i].slug == slug
  }

  lemma UndisturbedTurn(p: Progress, g: Gap, op: Op)
    requires p.Going? && g.calls == [] && op.TryAcquire?
    ensures Turn(p, g, op).Going? <==> !LiveAt(p.table, op.slug, g.now)
    ensures Turn(p, g, op).Going? ==>
              var t := Turn(p, g, op).table;
              && op.slug in t.leases && t.leases[op.slug].expiresAt == g.now + op.ttl
              && forall s :: s != op.slug ==>
                   (s in t.leases <==> s in p.table.leases) && (s in t.leases ==> t.leases[s] == p.table.leases[s])
  {
    assert AfterGap(p.table, g) == p.table;
  }

  lemma TakenStep(ops: seq<Op>, n: nat, slug: Slug)
    requires n < |ops|
    ensures Taken(ops, n + 1, slug) <==> Taken(ops, n, slug) || ops[n].slug == slug
  {
    if Taken(ops, n, slug) {
      var i :| 0 <= i < n && ops[i].slug == slug;
      assert i < n + 1;
    }
  }

  /** What we took is leased past our last acquire, the rest is as it was. */
  lemma {:induction false} UndisturbedOnSlug(t0: Table, schedule: seq<Gap>, ops: seq<Op>, ttl: int, n: nat, slug: Slug)
    requires Undisturbed(schedule, ops, ttl) && n <= |ops| && Turns(t0, schedule, ops, n).Going?
    ensures var t := Turns(t0, schedule, ops, n).table;
            && (Taken(ops, n, slug) ==> slug in t.leases && t.leases[slug].expiresAt >= schedule[0].now + ttl)
            && (!Taken(ops, n, slug) ==>
                  (slug in t.leases <==> slug in t0.leases) && (slug in t.leases ==> t.leases[slug] == t0.leases[slug]))
  {
    if n == 0 {
      assert Turns(t0, schedule, ops, 0).table == t0;
    } else {
      UndisturbedOnSlug(t0, schedule, ops, ttl, n - 1, slug);
      UndisturbedTurn(Turns(t0, schedule, ops, n - 1), schedule[n - 1], ops[n - 1]);
      TakenStep(ops, n - 1, slug);
    }
  }

  lemma GoesOnIff(t0: Table, schedule: seq<Gap>, ops: seq<Op>, ttl: int, n: nat)
    requires Undisturbed(schedule, ops, ttl) && AllFree(t0, schedule, ops) && n < |ops|
    requires Turns(t0, schedule, ops, n).Going?
    ensures Turns(t0, schedule, ops, n + 1).Going? <==> !Taken(ops, n, ops[n].slug)
  {
    UndisturbedOnSlug(t0, schedule, ops, ttl, n, ops[n].slug);
    UndisturbedTurn(Turns(t0, schedule, ops, n), schedule[n], ops[n]);
  }

  ghost predicate DistinctSlugs(ops: seq<Op>, n: nat)
    requires n <= |ops|
  {
    forall i, j :: 0 <= i < j < n ==> ops[i].slug != ops[j].slug
  }

  lemma OneMoreSlug(ops: seq<Op>, n: nat)
    requires n < |ops|
    ensures DistinctSlugs(ops, n + 1) <==> DistinctSlugs(ops, n) && !Taken(ops, n, ops[n].slug)
  {}

  lemma {:induction false} GoingIffDistinct(t0: Table, schedule: seq<Gap>, ops: seq<Op>, ttl: int, n: nat)
    requires Undisturbed(schedule, ops, ttl) && AllFree(t0, schedule, ops) && n <= |ops|
    ensures Turns(t0, schedule, ops, n).Going? <==> DistinctSlugs(ops, n)
  {
    if n == 0 {
      assert Turns(t0, schedule, ops, 0).Going?;
    } else {
      var m := n - 1;
      GoingIffDistinct(t0, schedule, ops, ttl, m);
      OneMoreSlug(ops, m);
      if Turns(t0, schedule, ops, m).Going? {
        GoesOnIff(t0, schedule, ops, ttl, m);
      } else {
        RefusalIsFinal(t0, schedule, ops, m, n);
      }
    }
  }

  // ---- repeated neighbours ----

  lemma DistinctCons<T(!new)>(x: T, rest: seq<T>)
    ensures Distinct([x] + rest) <==> x !in rest && Distinct(rest)
  {
    var xs := [x] + rest;
    if Distinct(xs) {
      forall j | 0 <= j < |rest| ensures rest[j] != x {
        assert xs[0] != xs[j + 1];
      }
      forall i, j | 0 <= i < j < |rest| ensures rest[i] != rest[j] {
        assert xs[i + 1] != xs[j + 1];
      }
    }
    if x !in rest && Distinct(rest) {
      forall i, j | 0 <= i < j < |xs| ensures xs[i] != xs[j] {
        assert xs[j] == rest[j - 1] && rest[j - 1] in rest;
      }
    }
  }

  lemma {:induction false} DistinctIffSingle<T(!new)>(xs: seq<T>)
    ensures Distinct(xs) <==> forall x :: multiset(xs)[x] <= 1
  {
    if xs == [] {
      assert Distinct(xs);
    } else {
      var rest := xs[1..];
      DistinctIffSingle(rest);
      DistinctCons(xs[0], rest);
      assert xs == [xs[0]] + rest;
      forall x ensures multiset(xs)[x] == multiset(rest)[x] + if x == xs[0] then 1 else 0 {}
      assert xs[0] in rest <==> multiset(rest)[xs[0]] >= 1;
    }
  }

  lemma DistinctTargetsIff(slug: Slug, neighbors: seq<Slug>)
    ensures Distinct(Targets(slug, neighbors)) <==> Distinct(Filter(neighbors, s => s != slug))
  {
    NeighborsComeSorted(slug, neighbors);
    var rest := Targets(slug, neighbors)[1..];
    DistinctIffSingle(rest);
    DistinctIffSingle(Filter(neighbors, s => s != slug));
    DistinctCons(slug, rest);
    assert Targets(slug, neighbors) == [slug] + rest;
  }

  /** An attempt that nobody contends, on free slugs, succeeds if and only if no neighbour other than the slug
      is listed twice: a repeated one conflicts with the lease just taken. */
  lemma UncontendedSucceedsIff(t0: Table, schedule: seq<Gap>, slug: Slug, neighbors: seq<Slug>, me: string, ttl: int)
    requires var ops := AcquireOps(Targets(slug, neighbors), me, ttl);
             2 * |ops| <= |schedule| && Undisturbed(schedule, ops, ttl) && AllFree(t0, schedule, ops)
    ensures Attempt(t0, schedule, AcquireOps(Targets(slug, neighbors), me, ttl)).Going?
       <==> Distinct(Filter(neighbors, s => s != slug))
  {
    var targets := Targets(slug, neighbors);
    var ops := AcquireOps(targets, me, ttl);
    GoingIffDistinct(t0, schedule, ops, ttl, |ops|);
    AcquiredRecords(t0, schedule, ops, me, |ops|);
    DistinctTargetsIff(slug, neighbors);
    assert forall i :: 0 <= i < |ops| ==> ops[i].slug == targets[i];
    assert DistinctSlugs(ops, |ops|) <==> Distinct(targets);
  }

  // ---- two neighbours that start at once ----

  /** Both start at once: x on a with neighbour b, y on b with neighbour a. Each takes its own slug, runs into
      the other and gives back what it took. */
  function Both(a: Slug, b: Slug, x: string, y: string, ttl: int): seq<Call> {
    [Call(0, TryAcquire(a, x, ttl)), Call(0, TryAcquire(b, y, ttl)), Call(0, TryAcquire(b, x, ttl)),
     Call(0, TryAcquire(a, y, ttl)), Call(0, Release(a, x, 1)), Call(0, Release(b, y, 1))]
  }

  /** The same calls as x sees them, with the gaps before its own, and as y does. */
  function First(a: Slug, b: Slug, x: string, y: string, ttl: int): seq<Gap> {
    [Gap([], 0), Gap([Call(0, TryAcquire(b, y, ttl))], 0), Gap([Call(0, TryAcquire(a, y, ttl))], 0), Gap([], 0)]
  }

  function Second(a: Slug, b: Slug, x: string, y: string, ttl: int): seq<Gap> {
    [Gap([Call(0, TryAcquire(a, x, ttl))], 0), Gap([Call(0, TryAcquire(b, x, ttl))], 0),
     Gap([Call(0, Release(a, x, 1))], 0), Gap([], 0)]
  }

  /** The others' calls and ours, in order. */
  function Told(schedule: seq<Gap>, own: seq<Op>, n: nat): seq<Call>
    requires n <= |schedule| && n <= |own|
  {
    if n == 0 then [] else Told(schedule, own, n - 1) + schedule[n - 1].calls + [Call(schedule[n - 1].now, own[n - 1])]
  }

  lemma OneCall(t: Table, c: Call)
    ensures StateAt(t, [c], 1) == Step(t, c).0
  {
    assert StateAt(t, [c], 0) == t;
  }

  lemma OneNeighbor(a: Slug, b: Slug)
    requires a != b
    ensures Targets(a, [b]) == [a, b]
  {
    assert Filter([b], s => s != a) == [b];
    assert SortBy([b], Leq) == [b];
  }

  function Mine(ttl: int, x: string): Lease { Lease(x, 1, 0, ttl) }

  lemma BothStates(a: Slug, b: Slug, x: string, y: string, ttl: int)
    requires a != b && ttl > 0
    ensures var calls, fences := Both(a, b, x, y, ttl), map[a := 1, b := 1];
            && StateAt(EMPTY, calls, 1) == Table(map[a := Mine(ttl, x)], map[a := 1])
            && StateAt(EMPTY, calls, 2) == StateAt(EMPTY, calls, 3) == StateAt(EMPTY, calls, 4)
               == Table(map[a := Mine(ttl, x), b := Mine(ttl, y)], fences)
            && StateAt(EMPTY, calls, 5) == Table(map[b := Mine(ttl, y)], fences)
            && StateAt(EMPTY, calls, 6) == Table(map[], fences)
  {
    var calls := Both(a, b, x, y, ttl);
    assert StateAt(EMPTY, calls, 0) == EMPTY;
    var t1 := StateAt(EMPTY, calls, 1);
    assert t1 == Table(map[a := Mine(ttl, x)], map[a := 1]);
    var t2 := StateAt(EMPTY, calls, 2);
    assert t2 == Table(map[a := Mine(ttl, x), b := Mine(ttl, y)], map[a := 1, b := 1]);
    assert StateAt(EMPTY, calls, 3) == t2 && StateAt(EMPTY, calls, 4) == t2;
    assert t2.leases - {a} == map[b := Mine(ttl, y)];
    assert StateAt(EMPTY, calls, 5) == Table(map[b := Mine(ttl, y)], t2.fence);
  }

  /** Taking turns in the schedule of x. */
  lemma FirstRefused(a: Slug, b: Slug, x: string, y: string, ttl: int)
    requires a != b && ttl > 0
    ensures var p := Attempt(EMPTY, First(a, b, x, y, ttl), AcquireOps([a, b], x, ttl));
            p.Refused? && p.table == StateAt(EMPTY, Both(a, b, x, y, ttl), 5)
  {
    var schedule, ops, calls := First(a, b, x, y, ttl), AcquireOps([a, b], x, ttl), Both(a, b, x, y, ttl);
    BothStates(a, b, x, y, ttl);
    var p1, t2 := Turns(EMPTY, schedule, ops, 1), StateAt(EMPTY, calls, 2);
    var mine := Record(a, x, 1, 0, ttl);
    assert Turns(EMPTY, schedule, ops, 0) == Going(EMPTY, []);
    assert AfterGap(EMPTY, schedule[0]) == EMPTY;
    assert p1 == Going(StateAt(EMPTY, calls, 1), [mine]);
    OneCall(p1.table, calls[1]);
    assert AfterGap(p1.table, schedule[1]) == t2;
    assert Turn(p1, schedule[1], ops[1]) == Refused(t2, [mine]);
    RefusedAttempt(EMPTY, schedule, ops, 1, p1);
    OneCall(t2, calls[3]);
    assert schedule[2..][0] == schedule[2] && AfterGap(t2, schedule[2]) == t2;
    RollbackOne(t2, schedule[2..], mine);
  }

  lemma RollbackOne(t: Table, schedule: seq<Gap>, r: Record)
    requires |schedule| >= 1
    ensures Turns(t, schedule, ReleaseOps([r]), 1).table
         == Step(AfterGap(t, schedule[0]), Call(schedule[0].now, Release(r.slug, r.holder, r.token))).0
  {
    assert Turns(t, schedule, ReleaseOps([r]), 0) == Going(t, []);
  }

  lemma SecondRefused(a: Slug, b: Slug, x: string, y: string, ttl: int)
    requires a != b && ttl > 0
    ensures var p := Attempt(EMPTY, Second(a, b, x, y, ttl), AcquireOps([b, a], y, ttl));
            p.Refused? && p.table == StateAt(EMPTY, Both(a, b, x, y, ttl), 6)
  {
    var schedule, ops, calls := Second(a, b, x, y, ttl), AcquireOps([b, a], y, ttl), Both(a, b, x, y, ttl);
    BothStates(a, b, x, y, ttl);
    var p1, t2 := Turns(EMPTY, schedule, ops, 1), StateAt(EMPTY, calls, 2);
    var mine := Record(b, y, 1, 0, ttl);
    assert Turns(EMPTY, schedule, ops, 0) == Going(EMPTY, []);
    OneCall(EMPTY, calls[0]);
    assert AfterGap(EMPTY, schedule[0]) == StateAt(EMPTY, calls, 1);
    assert p1 == Going(t2, [mine]);
    OneCall(t2, calls[2]);
    assert AfterGap(t2, schedule[1]) == t2;
    assert Turn(p1, schedule[1], ops[1]) == Refused(t2, [mine]);
    RefusedAttempt(EMPTY, schedule, ops, 1, p1);
    OneCall(t2, calls[4]);
    assert schedule[2..][0] == schedule[2] && AfterGap(t2, schedule[2]) == StateAt(EMPTY, calls, 5);
    RollbackOne(t2, schedule[2..], mine);
  }

  lemma ToldAlike(a: Slug, b: Slug, x: string, y: string, ttl: int)
    ensures Told(First(a, b, x, y, ttl), [TryAcquire(a, x, ttl), TryAcquire(b, x, ttl), Release(a, x, 1)], 3) == Both(a, b, x, y, ttl)[..5]
    ensures Told(Second(a, b, x, y, ttl), [TryAcquire(b, y, ttl), TryAcquire(a, y, ttl), Release(b, y, 1)], 3) == Both(a, b, x, y, ttl)
  {
    var calls := Both(a, b, x, y, ttl);
    var one, own := First(a, b, x, y, ttl), [TryAcquire(a, x, ttl), TryAcquire(b, x, ttl), Release(a, x, 1)];
    assert Told(one, own, 0) == [] && Told(one, own, 1) == calls[..1] && Told(one, own, 2) == calls[..3];
    var two, own2 := Second(a, b, x, y, ttl), [TryAcquire(b, y, ttl), TryAcquire(a, y, ttl), Release(b, y, 1)];
    assert Told(two, own2, 0) == [] && Told(two, own2, 1) == calls[..2] && Told(two, own2, 2) == calls[..4];
  }

  /** So two neighbours that start at once can refuse each other. It is one run of six calls, of which the two
      schedules tell each side's part, and both attempts end in a state of that run. */
  lemma NeighborsCanRefuseEachOther(a: Slug, b: Slug, x: string, y: string, ttl: int)
    requires a != b && x != y && ttl > 0
    ensures var calls := Both(a, b, x, y, ttl);
            var one, two := First(a, b, x, y, ttl), Second(a, b, x, y, ttl);
            var p, q := Attempt(EMPTY, one, AcquireOps(Targets(a, [b]), x, ttl)), Attempt(EMPTY, two, AcquireOps(Targets(b, [a]), y, ttl));
            && p.Refused? && p.table == StateAt(EMPTY, calls, 5)
            && q.Refused? && q.table == StateAt(EMPTY, calls, 6)
            && Told(one, [TryAcquire(a, x, ttl), TryAcquire(b, x, ttl), Release(a, x, 1)], 3) == calls[..5]
            && Told(two, [TryAcquire(b, y, ttl), TryAcquire(a, y, ttl), Release(b, y, 1)], 3) == calls
  {
    OneNeighbor(a, b);
    OneNeighbor(b, a);
    FirstRefused(a, b, x, y, ttl);
    SecondRefused(a, b, x, y, ttl);
    ToldAlike(a, b, x, y, ttl);
  }
}
