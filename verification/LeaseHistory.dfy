/** The lease protocol read off its own history: every answer of a run started empty, and every row a
    peek would show, follow from the calls and the earlier answers alone. */
module LeaseHistory {
  import opened LeaseProtocol

  /** Call m was granted slug, as a try_acquire or as a renewal. */
  predicate Extends(calls: seq<Call>, m: nat, slug: Slug)
    requires m < |calls|
  {
    !calls[m].op.Release? && calls[m].op.slug == slug && OutcomeAt(EMPTY, calls, m).Granted?
  }

  /** Call m extended slug or released it. */
  predicate Settles(calls: seq<Call>, m: nat, slug: Slug)
    requires m < |calls|
  {
    Extends(calls, m, slug) || (calls[m].op.slug == slug && OutcomeAt(EMPTY, calls, m) == Released(true))
  }

  /** Among the first n calls, i is the last that extended slug, and no release followed it. */
  ghost predicate LastExtension(calls: seq<Call>, n: nat, i: nat, slug: Slug)
    requires i < n <= |calls|
  {
    Extends(calls, i, slug) && forall k :: i < k < n ==> !Settles(calls, k, slug)
  }

  /** Among the first n calls, g is the last grant of slug, and no release followed it. */
  ghost predicate LastGrant(calls: seq<Call>, n: nat, g: nat, slug: Slug)
    requires g < n <= |calls|
  {
    Grants(EMPTY, calls, g, slug) && forall k :: g < k < n ==> !EndsGrant(calls, k, slug)
  }

  /** The lease that the last grant g and the last extension i of slug leave. */
  ghost predicate RowTells(calls: seq<Call>, n: nat, slug: Slug, l: Lease, g: nat, i: nat)
    requires n <= |calls|
  {
    && g < n && i < n && LastGrant(calls, n, g, slug) && LastExtension(calls, n, i, slug)
    && l.holder == calls[g].op.holder
    && l.token == GrantCount(EMPTY, calls, g, slug) + 1
    && l.acquiredAt == calls[g].now
    && l.expiresAt == calls[i].now + calls[i].op.ttl
  }

  ghost predicate OnRecord(calls: seq<Call>, n: nat, slug: Slug, l: Lease)
    requires n <= |calls|
  {
    exists g: nat, i: nat :: RowTells(calls, n, slug, l, g, i)
  }

  /** No extension of slug stands: none was made, or a release followed the last. */
  ghost predicate NoneOnRecord(calls: seq<Call>, n: nat, slug: Slug)
    requires n <= |calls|
  {
    forall i :: 0 <= i < n ==> !LastExtension(calls, n, i, slug)
  }

  /** The table holds for slug what the history says, and nothing where that says nothing. */
  ghost predicate Recorded(calls: seq<Call>, n: nat, slug: Slug)
    requires n <= |calls|
  {
    var t := StateAt(EMPTY, calls, n);
    if slug in t.leases then OnRecord(calls, n, slug, t.leases[slug]) else NoneOnRecord(calls, n, slug)
  }

  lemma UnsettledStep(calls: seq<Call>, m: nat, slug: Slug)
    requires m < |calls| && Recorded(calls, m, slug) && !Settles(calls, m, slug)
    ensures Recorded(calls, m + 1, slug)
  {
    var next := m + 1;
    var t, u := StateAt(EMPTY, calls, m), StateAt(EMPTY, calls, next);
    assert slug in t.leases <==> slug in u.leases;
    if slug in t.leases {
      var l := t.leases[slug];
      assert u.leases[slug] == l && !EndsGrant(calls, m, slug);
      var g: nat, i: nat :| RowTells(calls, m, slug, l, g, i);
      assert RowTells(calls, next, slug, l, g, i);
    } else {
      forall i | 0 <= i < next ensures !LastExtension(calls, next, i, slug) {
        if i < m {
          assert !LastExtension(calls, m, i, slug);
        }
      }
    }
  }

  lemma GrantStep(calls: seq<Call>, m: nat, slug: Slug)
    requires m < |calls| && Grants(EMPTY, calls, m, slug)
    ensures Recorded(calls, m + 1, slug)
  {
    FenceCountsGrants(EMPTY, calls, m, slug);
    assert RowTells(calls, m + 1, slug, StateAt(EMPTY, calls, m + 1).leases[slug], m, m);
  }

  lemma StillLastGrant(calls: seq<Call>, m: nat, g: nat, slug: Slug)
    requires g < m < |calls| && LastGrant(calls, m, g, slug) && calls[m].op.Renew?
    ensures LastGrant(calls, m + 1, g, slug)
  {}

  lemma RenewedRow(t: Table, c: Call)
    requires c.op.Renew? && Step(t, c).1.Granted?
    ensures var s := c.op.slug;
            && s in t.leases && s in Step(t, c).0.leases
            && Step(t, c).0.leases[s] == t.leases[s].(expiresAt := c.now + c.op.ttl)
  {}

  lemma RenewalStep(calls: seq<Call>, m: nat, slug: Slug)
    requires m < |calls| && Recorded(calls, m, slug) && Extends(calls, m, slug) && calls[m].op.Renew?
    ensures Recorded(calls, m + 1, slug)
  {
    var next := m + 1;
    RenewedRow(StateAt(EMPTY, calls, m), calls[m]);
    var l, l' := StateAt(EMPTY, calls, m).leases[slug], StateAt(EMPTY, calls, next).leases[slug];
    var g: nat, i: nat :| RowTells(calls, m, slug, l, g, i);
    StillLastGrant(calls, m, g, slug);
    assert LastExtension(calls, next, m, slug);
    assert RowTells(calls, next, slug, l', g, m);
  }

  lemma ReleaseStep(calls: seq<Call>, m: nat, slug: Slug)
    requires m < |calls| && calls[m].op.slug == slug && OutcomeAt(EMPTY, calls, m) == Released(true)
    ensures Recorded(calls, m + 1, slug)
  {
    var next := m + 1;
    forall i | 0 <= i < next ensures !LastExtension(calls, next, i, slug) {
      assert Settles(calls, m, slug);
    }
  }

  /** The table is the history's: a row stands exactly where the last extension was not followed by a
      release, its holder, token and acquisition time are those of the last grant, and its expiry is that
      of the last extension, grant or renewal. */
  lemma {:induction false} TableIsRecorded(calls: seq<Call>, n: nat, slug: Slug)
    requires n <= |calls|
    ensures Recorded(calls, n, slug)
  {
    if n == 0 {
      assert StateAt(EMPTY, calls, 0) == EMPTY;
    } else {
      var m := n - 1;
      TableIsRecorded(calls, m, slug);
      if !Settles(calls, m, slug) {
        UnsettledStep(calls, m, slug);
      } else if Grants(EMPTY, calls, m, slug) {
        GrantStep(calls, m, slug);
      } else if Extends(calls, m, slug) {
        RenewalStep(calls, m, slug);
      } else {
        ReleaseStep(calls, m, slug);
      }
    }
  }

  /** Before call j, some call granted or renewed its slug for longer than until now, and none since then
      granted, renewed or released it. */
  ghost predicate HeldAtCall(calls: seq<Call>, j: nat)
    requires j < |calls|
  {
    exists i :: 0 <= i < j && LastExtension(calls, j, i, calls[j].op.slug) && calls[j].now < calls[i].now + calls[i].op.ttl
  }

  /** A try_acquire is refused exactly while the slug is held, for the time its last grant or renewal
      asked for; otherwise it is granted the next token, from now on for its own time. */
  lemma AcquireIffNotHeld(calls: seq<Call>, j: nat)
    requires j < |calls| && calls[j].op.TryAcquire?
    ensures var (now, o) := (calls[j].now, calls[j].op);
            OutcomeAt(EMPTY, calls, j) ==
            if HeldAtCall(calls, j) then Conflict
            else Granted(Record(o.slug, o.holder, GrantCount(EMPTY, calls, j, o.slug) + 1, now, now + o.ttl))
  {
    var slug, t := calls[j].op.slug, StateAt(EMPTY, calls, j);
    TableIsRecorded(calls, j, slug);
    FenceCountsGrants(EMPTY, calls, j, slug);
    if slug in t.leases {
      var l := t.leases[slug];
      var g: nat, i: nat :| RowTells(calls, j, slug, l, g, i);
      if HeldAtCall(calls, j) {
        var i' :| 0 <= i' < j && LastExtension(calls, j, i', slug) && calls[j].now < calls[i'].now + calls[i'].op.ttl;
        assert i == i' by {
          assert Settles(calls, i, slug) && Settles(calls, i', slug);
        }
      }
    }
  }

  /** A renewal or release goes through exactly for the latest grantee that has not released; a renewal's
      record runs from now on for its own time. */
  lemma OwnerCallsTell(calls: seq<Call>, j: nat)
    requires j < |calls| && !calls[j].op.TryAcquire?
    ensures var (now, o) := (calls[j].now, calls[j].op);
            var mine := SomeGrantInForce(calls, j, o.slug, o.holder, o.token);
            OutcomeAt(EMPTY, calls, j) ==
            if o.Release? then Released(mine)
            else if mine then Granted(Record(o.slug, o.holder, o.token, now, now + o.ttl))
            else Conflict
  {
    var o := calls[j].op;
    OwnershipIsLatestGrant(calls, j, o.slug, o.holder, o.token);
  }
}
