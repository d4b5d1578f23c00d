/** The lease-and-fence protocol every lock registry follows: a lease table, and beside it a
    per-slug fence counter that outlives the leases. One call is one atomic step, taken under
    the registry's mutex; the clock reading of a call is part of the call. */
module LeaseProtocol {
  type Slug = string

  datatype Lease = Lease(holder: string, token: int, acquiredAt: int, expiresAt: int)

  datatype Table = Table(leases: map<Slug, Lease>, fence: map<Slug, int>)

  const EMPTY := Table(map[], map[])

  /** What a client is handed back; its times are those of the call that produced it. */
  datatype Record = Record(slug: Slug, holder: string, token: int, acquiredAt: int, expiresAt: int)

  datatype Op =
    | TryAcquire(slug: Slug, holder: string, ttl: int)
    | Renew(slug: Slug, holder: string, token: int, ttl: int)
    | Release(slug: Slug, holder: string, token: int)

  datatype Outcome = Granted(record: Record) | Conflict | Released(done: bool)

  datatype Call = Call(now: int, op: Op)

  function FenceOf(t: Table, slug: Slug): int {
    if slug in t.fence then t.fence[slug] else 0
  }

  /** The lease of slug carries exactly this holder and token. Expiry plays no part. */
  predicate OwnedBy(t: Table, slug: Slug, holder: string, token: int) {
    slug in t.leases && t.leases[slug].holder == holder && t.leases[slug].token == token
  }

  predicate LiveAt(t: Table, slug: Slug, now: int) {
    slug in t.leases && now < t.leases[slug].expiresAt
  }

  function Step(t: Table, c: Call): (Table, Outcome) {
    match c.op
    case TryAcquire(slug, holder, ttl) =>
      if LiveAt(t, slug, c.now) then (t, Conflict)
      else
        var token := FenceOf(t, slug) + 1;
        var expires := c.now + ttl;
        (Table(t.leases[slug := Lease(holder, token, c.now, expires)], t.fence[slug := token]),
         Granted(Record(slug, holder, token, c.now, expires)))
    case Renew(slug, holder, token, ttl) =>
      if !OwnedBy(t, slug, holder, token) then (t, Conflict)
      else
        var expires := c.now + ttl;
        (t.(leases := t.leases[slug := t.leases[slug].(expiresAt := expires)]),
         Granted(Record(slug, holder, token, c.now, expires)))
    case Release(slug, holder, token) =>
      if !OwnedBy(t, slug, holder, token) then (t, Released(false))
      else (t.(leases := t.leases - {slug}), Released(true))
  }

  // ---- runs: any interleaving of calls by any clients, in the order the mutex admits them ----

  function StateAt(t0: Table, calls: seq<Call>, i: nat): Table
    requires i <= |calls|
  {
    if i == 0 then t0 else Step(StateAt(t0, calls, i - 1), calls[i - 1]).0
  }

  function OutcomeAt(t0: Table, calls: seq<Call>, i: nat): Outcome
    requires i < |calls|
  {
    Step(StateAt(t0, calls, i), calls[i]).1
  }

  ghost predicate MonotoneClock(calls: seq<Call>) {
    forall i, j :: 0 <= i < j < |calls| ==> calls[i].now <= calls[j].now
  }

  /** Call i is a try_acquire of slug that was granted. */
  predicate Grants(t0: Table, calls: seq<Call>, i: nat, slug: Slug)
    requires i < |calls|
  {
    calls[i].op.TryAcquire? && calls[i].op.slug == slug && OutcomeAt(t0, calls, i).Granted?
  }

  /** Call i renewed or released slug under this holder and token, and was let. */
  predicate OwnerActs(t0: Table, calls: seq<Call>, i: nat, slug: Slug, holder: string, token: int)
    requires i < |calls|
  {
    var o := calls[i].op;
    && (o.Renew? || o.Release?)
    && o.slug == slug && o.holder == holder && o.token == token
    && OutcomeAt(t0, calls, i) !in {Conflict, Released(false)}
  }

  function GrantCount(t0: Table, calls: seq<Call>, i: nat, slug: Slug): nat
    requires i <= |calls|
  {
    if i == 0 then 0
    else GrantCount(t0, calls, i - 1, slug) + if Grants(t0, calls, i - 1, slug) then 1 else 0
  }

  // ---- invariants ----

  /** A held lease's token is the slug's fence counter. */
  ghost predicate Consistent(t: Table) {
    && (forall s :: s in t.leases ==> t.leases[s].token == FenceOf(t, s))
    && (forall s :: s in t.fence ==> 1 <= t.fence[s])
    && t.leases.Keys <= t.fence.Keys
  }

  lemma StepKeepsConsistent(t: Table, c: Call)
    requires Consistent(t)
    ensures Consistent(Step(t, c).0)
  {}

  lemma {:induction false} RunsStayConsistent(t0: Table, calls: seq<Call>, i: nat)
    requires i <= |calls| && Consistent(t0)
    ensures Consistent(StateAt(t0, calls, i))
  {
    if i == 0 {
    } else {
      RunsStayConsistent(t0, calls, i - 1);
      StepKeepsConsistent(StateAt(t0, calls, i - 1), calls[i - 1]);
    }
  }

  /** The fence counter counts grants, exactly: nothing else moves it. */
  lemma {:induction false} FenceCountsGrants(t0: Table, calls: seq<Call>, i: nat, slug: Slug)
    requires i <= |calls|
    ensures FenceOf(StateAt(t0, calls, i), slug) == FenceOf(t0, slug) + GrantCount(t0, calls, i, slug)
  {
    if i == 0 {
    } else {
      FenceCountsGrants(t0, calls, i - 1, slug);
    }
  }

  lemma {:induction false} GrantCountGrows(t0: Table, calls: seq<Call>, i: nat, j: nat, slug: Slug)
    requires i <= j <= |calls|
    ensures GrantCount(t0, calls, i, slug) <= GrantCount(t0, calls, j, slug)
  {
    if i == j {
    } else {
      GrantCountGrows(t0, calls, i, j - 1, slug);
    }
  }

  /** Tokens granted for one slug strictly increase, and their difference is the number of grants between. */
  lemma TokensStrictlyIncrease(t0: Table, calls: seq<Call>, i: nat, j: nat, slug: Slug)
    requires i < j < |calls| && Grants(t0, calls, i, slug) && Grants(t0, calls, j, slug)
    ensures OutcomeAt(t0, calls, i).record.token < OutcomeAt(t0, calls, j).record.token
    ensures OutcomeAt(t0, calls, j).record.token - OutcomeAt(t0, calls, i).record.token
         == GrantCount(t0, calls, j, slug) - GrantCount(t0, calls, i, slug)
  {
    FenceCountsGrants(t0, calls, i, slug);
    FenceCountsGrants(t0, calls, j, slug);
    GrantCountGrows(t0, calls, i + 1, j, slug);
  }

  // ---- fencing: a superseded token is powerless ----

  /** Once a newer token has been granted, every renew or release under an older one is refused and
      changes nothing, although renew never looks at the expiry time. */
  lemma StaleTokenIsPowerless(t0: Table, calls: seq<Call>, i: nat, j: nat)
    requires Consistent(t0) && i < j < |calls| && Grants(t0, calls, i, calls[i].op.slug)
    requires calls[j].op.Renew? || calls[j].op.Release?
    requires calls[j].op.slug == calls[i].op.slug
    requires calls[j].op.token < OutcomeAt(t0, calls, i).record.token
    ensures OutcomeAt(t0, calls, j) == if calls[j].op.Renew? then Conflict else Released(false)
    ensures StateAt(t0, calls, j + 1) == StateAt(t0, calls, j)
  {
    var slug := calls[i].op.slug;
    RunsStayConsistent(t0, calls, j);
    FenceCountsGrants(t0, calls, i, slug);
    FenceCountsGrants(t0, calls, j, slug);
    GrantCountGrows(t0, calls, i + 1, j, slug);
  }

  // ---- mutual exclusion as the clients see it ----

  /** A lease that its owner leaves alone is still there, unchanged, as long as it has not expired. */
  lemma {:induction false} UntouchedLeaseStands(t0: Table, calls: seq<Call>, i: nat, j: nat, slug: Slug, l: Lease)
    requires i <= j <= |calls| && MonotoneClock(calls)
    requires slug in StateAt(t0, calls, i).leases && StateAt(t0, calls, i).leases[slug] == l
    requires forall k :: i <= k < j ==> !OwnerActs(t0, calls, k, slug, l.holder, l.token)
    requires i < j ==> calls[j - 1].now < l.expiresAt
    ensures slug in StateAt(t0, calls, j).leases && StateAt(t0, calls, j).leases[slug] == l
  {
    if i == j {
    } else {
      assert i < j - 1 ==> calls[j - 2].now <= calls[j - 1].now;
      UntouchedLeaseStands(t0, calls, i, j - 1, slug, l);
      assert !OwnerActs(t0, calls, j - 1, slug, l.holder, l.token);
    }
  }

  /** Leases exclude each other in time. If call i handed a client a lease (by grant or renewal) and
      call j grants the slug again before that lease's expiry, then between the two the first client
      itself renewed (to another expiry) or released it. */
  lemma LeasesExclude(t0: Table, calls: seq<Call>, i: nat, j: nat)
    requires MonotoneClock(calls) && i < j < |calls|
    requires OutcomeAt(t0, calls, i).Granted?
    requires Grants(t0, calls, j, calls[i].op.slug)
    requires calls[j].now < OutcomeAt(t0, calls, i).record.expiresAt
    ensures var r := OutcomeAt(t0, calls, i).record;
            exists k :: i < k < j && OwnerActs(t0, calls, k, r.slug, r.holder, r.token)
  {
    var r := OutcomeAt(t0, calls, i).record;
    if forall k :: i < k < j ==> !OwnerActs(t0, calls, k, r.slug, r.holder, r.token) {
      var l := StateAt(t0, calls, i + 1).leases[r.slug];
      assert i + 1 < j ==> calls[j - 1].now <= calls[j].now;
      UntouchedLeaseStands(t0, calls, i + 1, j, r.slug, l);
      assert false;
    }
  }

  // ---- who may renew: exactly the latest grantee that has not released ----

  /** Call m grants slug to this holder under this token. */
  ghost predicate GrantsThis(calls: seq<Call>, m: nat, slug: Slug, holder: string, token: int)
    requires m < |calls|
  {
    Grants(EMPTY, calls, m, slug) && calls[m].op.holder == holder && OutcomeAt(EMPTY, calls, m).record.token == token
  }

  /** Call m grants slug to anybody, or releases it. */
  ghost predicate EndsGrant(calls: seq<Call>, m: nat, slug: Slug)
    requires m < |calls|
  {
    Grants(EMPTY, calls, m, slug)
    || (calls[m].op.Release? && calls[m].op.slug == slug && OutcomeAt(EMPTY, calls, m) == Released(true))
  }

  /** Read off the history alone: call i granted slug to this holder under this token, nobody was
      granted it since, and no release of it went through since. */
  ghost predicate GrantInForce(calls: seq<Call>, n: nat, i: nat, slug: Slug, holder: string, token: int)
    requires i < n <= |calls|
  {
    GrantsThis(calls, i, slug, holder, token) && forall k :: i < k < n ==> !EndsGrant(calls, k, slug)
  }

  ghost predicate SomeGrantInForce(calls: seq<Call>, n: nat, slug: Slug, holder: string, token: int)
    requires n <= |calls|
  {
    exists i :: 0 <= i < n && GrantInForce(calls, n, i, slug, holder, token)
  }

  lemma InForceStep(calls: seq<Call>, m: nat, slug: Slug, holder: string, token: int)
    requires m < |calls|
    ensures SomeGrantInForce(calls, m + 1, slug, holder, token) <==>
            GrantsThis(calls, m, slug, holder, token) || (SomeGrantInForce(calls, m, slug, holder, token) && !EndsGrant(calls, m, slug))
  {
    if GrantsThis(calls, m, slug, holder, token) {
      assert GrantInForce(calls, m + 1, m, slug, holder, token);
    } else if SomeGrantInForce(calls, m, slug, holder, token) && !EndsGrant(calls, m, slug) {
      var i :| 0 <= i < m && GrantInForce(calls, m, i, slug, holder, token);
      assert GrantInForce(calls, m + 1, i, slug, holder, token);
    }
    if SomeGrantInForce(calls, m + 1, slug, holder, token) {
      var i :| 0 <= i < m + 1 && GrantInForce(calls, m + 1, i, slug, holder, token);
      if i < m {
        assert GrantInForce(calls, m, i, slug, holder, token);
      }
    }
  }

  lemma OwnedStep(calls: seq<Call>, m: nat, slug: Slug, holder: string, token: int)
    requires m < |calls|
    ensures OwnedBy(StateAt(EMPTY, calls, m + 1), slug, holder, token) <==>
            GrantsThis(calls, m, slug, holder, token) || (OwnedBy(StateAt(EMPTY, calls, m), slug, holder, token) && !EndsGrant(calls, m, slug))
  {}

  /** The table's notion of ownership is the history's: the latest grant, not since released. */
  lemma {:induction false} OwnershipIsLatestGrant(calls: seq<Call>, n: nat, slug: Slug, holder: string, token: int)
    requires n <= |calls|
    ensures OwnedBy(StateAt(EMPTY, calls, n), slug, holder, token) <==> SomeGrantInForce(calls, n, slug, holder, token)
  {
    if n == 0 {
      assert StateAt(EMPTY, calls, 0) == EMPTY;
    } else {
      OwnershipIsLatestGrant(calls, n - 1, slug, holder, token);
      OwnedStep(calls, n - 1, slug, holder, token);
      InForceStep(calls, n - 1, slug, holder, token);
    }
  }

  /** A renewal succeeds exactly when its caller is the latest grantee and has not released, be the lease
      expired or not. */
  lemma RenewIffLatestGrantee(calls: seq<Call>, j: nat)
    requires j < |calls| && calls[j].op.Renew?
    ensures var o := calls[j].op;
            OutcomeAt(EMPTY, calls, j).Granted? <==> SomeGrantInForce(calls, j, o.slug, o.holder, o.token)
  {
    var o := calls[j].op;
    OwnershipIsLatestGrant(calls, j, o.slug, o.holder, o.token);
  }
}
