/** The SQLite lock registry: two tables, read and written under one mutex. */
module SqliteLocks {
  import opened Collections
  import opened LeaseProtocol

  class SqliteLockRegistry {
    var leases: map<Slug, Lease>
    var fence: map<Slug, int>

    function View(): Table
      reads this
    {
      Table(leases, fence)
    }

    constructor ()
      ensures View() == EMPTY
    {
      leases := map[];
      fence := map[];
    }

    method BumpFence(slug: Slug) returns (token: int)
      modifies this`fence
      ensures token == FenceOf(old(View()), slug) + 1
      ensures fence == old(fence)[slug := token]
    {
      token := if slug in fence then fence[slug] + 1 else 1;
      fence := fence[slug := token];
    }

    method TryAcquire(now: int, slug: Slug, holder: string, ttl: int) returns (o: Outcome)
      modifies this
      ensures (View(), o) == Step(old(View()), Call(now, Op.TryAcquire(slug, holder, ttl)))
    {
      if slug in leases {
        if leases[slug].expiresAt > now {
          return Conflict;
        }
        leases := leases - {slug};
      }
      var token := BumpFence(slug);
      leases := leases[slug := Lease(holder, token, now, now + ttl)];
      assert leases == old(leases)[slug := Lease(holder, token, now, now + ttl)];
      return Granted(Record(slug, holder, token, now, now + ttl));
    }

    method Renew(now: int, slug: Slug, holder: string, token: int, ttl: int) returns (o: Outcome)
      modifies this
      ensures (View(), o) == Step(old(View()), Call(now, Op.Renew(slug, holder, token, ttl)))
    {
      if slug !in leases {
        return Conflict;
      }
      if leases[slug].holder != holder || leases[slug].token != token {
        return Conflict;
      }
      leases := leases[slug := leases[slug].(expiresAt := now + ttl)];
      return Granted(Record(slug, holder, token, now, now + ttl));
    }

    method Release(now: int, slug: Slug, holder: string, token: int) returns (o: Outcome)
      modifies this
      ensures (View(), o) == Step(old(View()), Call(now, Op.Release(slug, holder, token)))
    {
      if slug !in leases {
        return Released(false);
      }
      if leases[slug].holder != holder || leases[slug].token != token {
        return Released(false);
      }
      leases := leases - {slug};
      return Released(true);
    }

    /** One call, whichever it is. */
    method Serve(c: Call) returns (o: Outcome)
      modifies this
      ensures (View(), o) == Step(old(View()), c)
    {
      match c.op
      case TryAcquire(slug, holder, ttl) => o := TryAcquire(c.now, slug, holder, ttl);
      case Renew(slug, holder, token, ttl) => o := Renew(c.now, slug, holder, token, ttl);
      case Release(slug, holder, token) => o := Release(c.now, slug, holder, token);
    }

    /** The stored lease: unlike the records handed back by a renewal, it keeps the time of the grant. */
    method Peek(slug: Slug) returns (r: Option<Record>)
      ensures r.Some? <==> slug in View().leases
      ensures r.Some? ==>
        var l := View().leases[slug];
        r.value == Record(slug, l.holder, l.token, l.acquiredAt, l.expiresAt)
    {
      if slug !in leases {
        return None;
      }
      var l := leases[slug];
      return Some(Record(slug, l.holder, l.token, l.acquiredAt, l.expiresAt));
    }
  }
}
