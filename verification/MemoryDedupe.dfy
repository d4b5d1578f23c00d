/** Merging duplicate memories. The endpoint sends its statements one by one, each committed on its own, so
    a statement that a constraint refuses leaves the earlier ones in place. */
module MemoryDedupe {
  import opened Collections

  type Id = nat

  /** hash is the nullable content_hash column; the query groups the rows without one together. */
  datatype Row = Row(id: Id, hash: Option<string>, createdAt: int, access: int, parent: Option<Id>)

  datatype Link = Link(source: Id, target: Id, relationship: string)

  datatype Db = Db(rows: seq<Row>, links: seq<Link>)

  /** One line of the query's answer: the ids of a hash from the oldest on, and their summed accesses. */
  datatype Group = Group(hash: Option<string>, ids: seq<Id>, total: int)

  /** The link table's constraints: no self-links, and (source, target, relationship) is unique. */
  ghost predicate Lawful(links: seq<Link>) {
    && (forall i :: 0 <= i < |links| ==> links[i].source != links[i].target)
    && Distinct(links)
  }

  ghost predicate WellFormed(db: Db) {
    && (forall i, j :: 0 <= i < j < |db.rows| ==> db.rows[i].id != db.rows[j].id)
    && Lawful(db.links)
    && (forall l :: l in db.links ==> HasId(db.rows, l.source) && HasId(db.rows, l.target))
  }

  predicate HasId(rows: seq<Row>, id: Id) { exists r :: r in rows && r.id == id }

  function AccessOf(rows: seq<Row>, hash: Option<string>): int {
    if rows == [] then 0
    else (if rows[0].hash == hash then rows[0].access else 0) + AccessOf(rows[1..], hash)
  }

  function TotalAccess(rows: seq<Row>): int {
    if rows == [] then 0 else rows[0].access + TotalAccess(rows[1..])
  }

  ghost predicate GroupOf(rows: seq<Row>, g: Group) {
    && |g.ids| > 1 && Distinct(g.ids)
    && (forall id :: id in g.ids ==> HasId(rows, id))
    && (forall r :: r in rows ==> (r.id in g.ids <==> r.hash == g.hash))
    && (forall r, s :: r in rows && s in rows && r.id == g.ids[0] && s.id in g.ids ==> r.createdAt <= s.createdAt)
    && g.total == AccessOf(rows, g.hash)
  }

  /** groups answers the endpoint's query: each is the group of its hash, and no hash comes twice; */
  ghost predicate Answers(rows: seq<Row>, groups: seq<Group>) {
    && (forall i {:trigger GroupOf(rows, groups[i])} :: 0 <= i < |groups| ==> GroupOf(rows, groups[i]))
    && (forall i, j :: 0 <= i < j < |groups| ==> groups[i].hash != groups[j].hash)
  }

  /** ... and each hash that two rows share has its group. */
  ghost predicate CoversRepeats(rows: seq<Row>, groups: seq<Group>) {
    forall i, j :: 0 <= i < j < |rows| && rows[i].hash == rows[j].hash ==> HasGroup(groups, rows[i].hash)
  }

  ghost predicate HasGroup(groups: seq<Group>, hash: Option<string>) {
    exists i :: 0 <= i < |groups| && groups[i].hash == hash
  }

  // ---- the statements ----

  function SetAccess(rows: seq<Row>, keep: Id, total: int): seq<Row> {
    if rows == [] then []
    else [if rows[0].id == keep then rows[0].(access := total) else rows[0]] + SetAccess(rows[1..], keep, total)
  }

  function Resourced(links: seq<Link>, g: Group): (r: seq<Link>)
    requires |g.ids| > 1
    ensures |r| == |links|
  {
    seq(|links|, i requires 0 <= i < |links| => links[i].(source := Moved(g, links[i].source)))
  }

  function Retargeted(links: seq<Link>, g: Group): (r: seq<Link>)
    requires |g.ids| > 1
    ensures |r| == |links|
  {
    seq(|links|, i requires 0 <= i < |links| => links[i].(target := Moved(g, links[i].target)))
  }

  function Moved(g: Group, id: Id): Id
    requires |g.ids| > 1
  {
    if id in g.ids[1..] then g.ids[0] else id
  }

  /** Deleting rows clears the parent of their children, and would take their links along. */
  function Deleted(rows: seq<Row>, drops: seq<Id>): seq<Row> {
    if rows == [] then []
    else
      (if rows[0].id in drops then [] else [Orphaned(rows[0], drops)]) + Deleted(rows[1..], drops)
  }

  function Orphaned(r: Row, drops: seq<Id>): Row {
    if r.parent.Some? && r.parent.value in drops then r.(parent := None) else r
  }

  function Cascaded(links: seq<Link>, drops: seq<Id>): seq<Link> {
    Filter(links, (l: Link) => l.source !in drops && l.target !in drops)
  }

  /** The statements of one group; pinned are the memories that tasks point to, which cannot be deleted. */
  ghost function Merge(db: Db, g: Group, pinned: set<Id>): (Db, bool)
    requires |g.ids| > 1
  {
    var rows := SetAccess(db.rows, g.ids[0], g.total);
    var sources := Resourced(db.links, g);
    var targets := Retargeted(sources, g);
    if !Lawful(sources) then (Db(rows, db.links), false)
    else if !Lawful(targets) then (Db(rows, sources), false)
    else if exists id :: id in g.ids[1..] && id in pinned then (Db(rows, targets), false)
    else (Db(Deleted(rows, g.ids[1..]), Cascaded(targets, g.ids[1..])), true)
  }

  ghost predicate Grouped(groups: seq<Group>) { forall i :: 0 <= i < |groups| ==> |groups[i].ids| > 1 }

  ghost function Run(db: Db, groups: seq<Group>, n: nat, pinned: set<Id>): (Db, bool)
    requires n <= |groups| && Grouped(groups)
  {
    if n == 0 then (db, true)
    else
      var (d, ok) := Run(db, groups, n - 1, pinned);
      if ok then Merge(d, groups[n - 1], pinned) else (d, false)
  }

  function DroppedCount(groups: seq<Group>, n: nat): int
    requires n <= |groups|
  {
    if n == 0 then 0 else DroppedCount(groups, n - 1) + |groups[n - 1].ids| - 1
  }

  function MergedCount(groups: seq<Group>, n: nat): int
    requires n <= |groups|
  {
    if n == 0 then 0 else MergedCount(groups, n - 1) + groups[n - 1].total
  }

  // ---- the code ----

  datatype Reply = Reply(deleted: int, merged: int, dryRun: bool) | ConstraintViolation

  class MemoryStore {
    var rows: seq<Row>
    var links: seq<Link>
    const pinned: set<Id>

    function View(): Db
      reads this
    {
      Db(rows, links)
    }

    method Relink(updated: seq<Link>) returns (ok: bool)
      modifies this`links
      ensures ok <==> Lawful(updated)
      ensures links == if ok then updated else old(links)
    {
      ok := true;
      for i := 0 to |updated|
        invariant ok <==> Lawful(updated[..i])
      {
        assert updated[..i + 1] == updated[..i] + [updated[i]];
        assert updated[i] in updated[..i] ==> exists j :: 0 <= j < i && updated[j] == updated[i];
        if updated[i].source == updated[i].target || updated[i] in updated[..i] {
          ok := false;
        }
      }
      assert updated[..|updated|] == updated;
      if ok {
        links := updated;
      }
    }

    /** The statements for one group. */
    method MergeGroup(g: Group) returns (ok: bool)
      requires |g.ids| > 1
      modifies this
      ensures (View(), ok) == Merge(old(View()), g, pinned)
    {
      rows := SetAccess(rows, g.ids[0], g.total);
      ok := Relink(Resourced(links, g));
      if ok {
        ok := Relink(Retargeted(links, g));
      }
      if ok {
        ok := forall id :: id in g.ids[1..] ==> id !in pinned;
      }
      if ok {
        rows, links := Deleted(rows, g.ids[1..]), Cascaded(links, g.ids[1..]);
      }
    }

    /** groups is the answer to the query the endpoint starts with. */
    method Dedupe(groups: seq<Group>, dryRun: bool) returns (r: Reply)
      requires Grouped(groups)
      modifies this
      ensures dryRun ==> View() == old(View()) && r == Reply(DroppedCount(groups, |groups|), MergedCount(groups, |groups|), true)
      ensures !dryRun ==>
                var (db, ok) := Run(old(View()), groups, |groups|, pinned);
                && View() == db
                && r == if ok then Reply(DroppedCount(groups, |groups|), MergedCount(groups, |groups|), false) else ConstraintViolation
    {
      var deleted, merged := 0, 0;
      for i := 0 to |groups|
        invariant deleted == DroppedCount(groups, i) && merged == MergedCount(groups, i)
        invariant (View(), true) == if dryRun then (old(View()), true) else Run(old(View()), groups, i, pinned)
      {
        var g := groups[i];
        if !dryRun {
          var ok := MergeGroup(g);
          if !ok {
            Stuck(old(View()), groups, i + 1, |groups|, pinned);
            return ConstraintViolation;
          }
        }
        deleted := deleted + |g.ids| - 1;
        merged := merged + g.total;
      }
      r := Reply(deleted, merged, dryRun);
    }
  }

  /** Once a statement is refused, nothing more happens. */
  lemma {:induction false} Stuck(db: Db, groups: seq<Group>, m: nat, n: nat, pinned: set<Id>)
    requires m <= n <= |groups| && Grouped(groups) && !Run(db, groups, m, pinned).1
    ensures Run(db, groups, n, pinned) == Run(db, groups, m, pinned)
  {
    if m == n {
    } else {
      Stuck(db, groups, m, n - 1, pinned);
    }
  }

  // ---- links ----

  /** Where an id's row is merged into after the first n groups. */
  function KeepOf(groups: seq<Group>, n: nat, id: Id): Id
    requires n <= |groups| && Grouped(groups)
  {
    if n == 0 then id else Moved(groups[n - 1], KeepOf(groups, n - 1, id))
  }

  function Redirected(links: seq<Link>, groups: seq<Group>, n: nat): (r: seq<Link>)
    requires n <= |groups| && Grouped(groups)
    ensures |r| == |links|
  {
    seq(|links|, i requires 0 <= i < |links| =>
      Link(KeepOf(groups, n, links[i].source), KeepOf(groups, n, links[i].target), links[i].relationship))
  }

  /** No later merge repairs a self-link or a collision. */
  lemma LawfulBackwards(earlier: seq<Link>, later: seq<Link>)
    requires |earlier| == |later| && Lawful(later)
    requires forall i :: 0 <= i < |earlier| && earlier[i].source == earlier[i].target ==> later[i].source == later[i].target
    requires forall i, j :: 0 <= i < j < |earlier| && earlier[i] == earlier[j] ==> later[i] == later[j]
    ensures Lawful(earlier)
  {}

  lemma RedirectStep(links: seq<Link>, groups: seq<Group>, n: nat)
    requires 0 < n <= |groups| && Grouped(groups)
    ensures Retargeted(Resourced(Redirected(links, groups, n - 1), groups[n - 1]), groups[n - 1]) == Redirected(links, groups, n)
    ensures Lawful(Redirected(links, groups, n)) ==> Lawful(Resourced(Redirected(links, groups, n - 1), groups[n - 1]))
    ensures Lawful(Redirected(links, groups, n)) ==> Lawful(Redirected(links, groups, n - 1))
  {
    var before, after := Redirected(links, groups, n - 1), Redirected(links, groups, n);
    var between := Resourced(before, groups[n - 1]);
    if Lawful(after) {
      LawfulBackwards(between, after);
      LawfulBackwards(before, after);
    }
  }

  lemma {:induction false} NothingDangles(links: seq<Link>, drops: seq<Id>)
    requires forall l :: l in links ==> l.source !in drops && l.target !in drops
    ensures Cascaded(links, drops) == links
  {
    if links == [] {
    } else {
      NothingDangles(links[1..], drops);
    }
  }

  lemma RelinkedAvoidsDrops(links: seq<Link>, g: Group)
    requires |g.ids| > 1 && Distinct(g.ids)
    ensures Cascaded(Retargeted(Resourced(links, g), g), g.ids[1..]) == Retargeted(Resourced(links, g), g)
  {
    var after := Retargeted(Resourced(links, g), g);
    forall l | l in after ensures l.source !in g.ids[1..] && l.target !in g.ids[1..] {
      var i :| 0 <= i < |after| && after[i] == l;
      MovedIsKept(g, links[i].source);
      MovedIsKept(g, links[i].target);
    }
    NothingDangles(after, g.ids[1..]);
  }

  lemma MovedIsKept(g: Group, id: Id)
    requires |g.ids| > 1 && Distinct(g.ids)
    ensures Moved(g, id) !in g.ids[1..]
  {
    assert forall i :: 0 <= i < |g.ids[1..]| ==> g.ids[1..][i] == g.ids[i + 1];
  }

  predicate Dropped(groups: seq<Group>, n: nat, id: Id)
    requires n <= |groups| && Grouped(groups)
  {
    exists i :: 0 <= i < n && id in groups[i].ids[1..]
  }

  ghost predicate PinnedDropped(groups: seq<Group>, n: nat, pinned: set<Id>)
    requires n <= |groups| && Grouped(groups)
  {
    exists id :: id in pinned && Dropped(groups, n, id)
  }

  lemma LinksStep(d: Db, links: seq<Link>, groups: seq<Group>, n: nat, pinned: set<Id>)
    requires 0 < n <= |groups| && Grouped(groups) && Distinct(groups[n - 1].ids) && d.links == Redirected(links, groups, n - 1)
    ensures Merge(d, groups[n - 1], pinned).1
        <==> Lawful(Redirected(links, groups, n)) && !(exists id :: id in groups[n - 1].ids[1..] && id in pinned)
    ensures Merge(d, groups[n - 1], pinned).1 ==> Merge(d, groups[n - 1], pinned).0.links == Redirected(links, groups, n)
  {
    RedirectStep(links, groups, n);
    RelinkedAvoidsDrops(Redirected(links, groups, n - 1), groups[n - 1]);
  }

  /** The links of a run so far, and the exact condition for it to have come this far. */
  lemma {:induction false} RunLinks(db: Db, groups: seq<Group>, n: nat, pinned: set<Id>)
    requires n <= |groups| && Grouped(groups) && Lawful(db.links)
    requires forall i :: 0 <= i < n ==> Distinct(groups[i].ids)
    ensures Run(db, groups, n, pinned).1 <==> Lawful(Redirected(db.links, groups, n)) && !PinnedDropped(groups, n, pinned)
    ensures Run(db, groups, n, pinned).1 ==> Run(db, groups, n, pinned).0.links == Redirected(db.links, groups, n)
  {
    if n == 0 {
      assert Redirected(db.links, groups, 0) == db.links;
    } else {
      RunLinks(db, groups, n - 1, pinned);
      var (d, ok) := Run(db, groups, n - 1, pinned);
      PinnedStep(groups, n, pinned);
      if ok {
        LinksStep(d, db.links, groups, n, pinned);
      } else {
        RedirectStep(db.links, groups, n);
      }
    }
  }

  lemma PinnedStep(groups: seq<Group>, n: nat, pinned: set<Id>)
    requires 0 < n <= |groups| && Grouped(groups)
    ensures PinnedDropped(groups, n, pinned)
        <==> PinnedDropped(groups, n - 1, pinned) || exists id :: id in groups[n - 1].ids[1..] && id in pinned
  {
    if PinnedDropped(groups, n, pinned) {
      var id :| id in pinned && Dropped(groups, n, id);
      assert Dropped(groups, n - 1, id) || id in groups[n - 1].ids[1..];
    }
    if PinnedDropped(groups, n - 1, pinned) {
      var id :| id in pinned && Dropped(groups, n - 1, id);
      assert Dropped(groups, n, id);
    }
    if id :| id in groups[n - 1].ids[1..] && id in pinned {
      assert Dropped(groups, n, id);
    }
  }

  /** The endpoint succeeds if and only if redirecting every link at once makes no self-link and no
      collision, and no task points to a row that is to be dropped. */
  lemma SucceedsIff(db: Db, groups: seq<Group>, pinned: set<Id>)
    requires WellFormed(db) && Answers(db.rows, groups)
    ensures Grouped(groups)
    ensures Run(db, groups, |groups|, pinned).1
        <==> Lawful(Redirected(db.links, groups, |groups|)) && !PinnedDropped(groups, |groups|, pinned)
  {
    assert forall i :: 0 <= i < |groups| ==> GroupOf(db.rows, groups[i]);
    RunLinks(db, groups, |groups|, pinned);
  }

  // ---- rows ----

  function Merged(rows: seq<Row>, g: Group): seq<Row>
    requires |g.ids| > 1
  {
    Deleted(SetAccess(rows, g.ids[0], g.total), g.ids[1..])
  }

  function Adjusted(r: Row, g: Group): Row
    requires |g.ids| > 1
  {
    Orphaned(if r.id == g.ids[0] then r.(access := g.total) else r, g.ids[1..])
  }

  lemma MergedHead(rows: seq<Row>, g: Group)
    requires |g.ids| > 1 && rows != []
    ensures rows[0].id in g.ids[1..] ==> Merged(rows, g) == Merged(rows[1..], g)
    ensures rows[0].id !in g.ids[1..] ==> Merged(rows, g) == [Adjusted(rows[0], g)] + Merged(rows[1..], g)
  {
    var updated := SetAccess(rows, g.ids[0], g.total);
    assert updated[1..] == SetAccess(rows[1..], g.ids[0], g.total);
  }

  lemma {:induction false} MergedMembers(rows: seq<Row>, g: Group)
    requires |g.ids| > 1
    ensures forall r :: r in rows && r.id !in g.ids[1..] ==> Adjusted(r, g) in Merged(rows, g)
    ensures forall s :: s in Merged(rows, g) ==> exists r :: r in rows && r.id !in g.ids[1..] && s == Adjusted(r, g)
  {
    if rows == [] {
    } else {
      MergedHead(rows, g);
      MergedMembers(rows[1..], g);
      forall s | s in Merged(rows, g) ensures exists r :: r in rows && r.id !in g.ids[1..] && s == Adjusted(r, g) {
        if s !in Merged(rows[1..], g) {
          assert rows[0] in rows;
        }
      }
    }
  }

  ghost predicate DistinctIds(rows: seq<Row>) { DistinctBy(rows, (r: Row) => r.id) }

  lemma {:induction false} MergedDistinct(rows: seq<Row>, g: Group)
    requires |g.ids| > 1 && DistinctIds(rows)
    ensures DistinctIds(Merged(rows, g))
  {
    if rows == [] {
    } else {
      MergedHead(rows, g);
      MergedDistinct(rows[1..], g);
      MergedMembers(rows[1..], g);
      var rest := Merged(rows[1..], g);
      forall j | 0 <= j < |rest| ensures rest[j].id != rows[0].id {
        assert rest[j] in rest;
      }
    }
  }

  /** The rows at hand fit a group: the group's ids are those of the rows with its hash. */
  ghost predicate Fits(rows: seq<Row>, g: Group) {
    forall r :: r in rows ==> (r.id in g.ids <==> r.hash == g.hash)
  }

  lemma AccessCons(r: Row, rest: seq<Row>, hash: Option<string>)
    ensures AccessOf([r] + rest, hash) == (if r.hash == hash then r.access else 0) + AccessOf(rest, hash)
    ensures RestOf([r] + rest, hash) == (if r.hash == hash then 0 else r.access) + RestOf(rest, hash)
  {
    assert ([r] + rest)[1..] == rest;
  }

  lemma {:induction false} OthersKeepAccess(rows: seq<Row>, g: Group, hash: Option<string>)
    requires |g.ids| > 1 && Fits(rows, g) && hash != g.hash
    ensures AccessOf(Merged(rows, g), hash) == AccessOf(rows, hash)
  {
    if rows == [] {
    } else {
      MergedHead(rows, g);
      OthersKeepAccess(rows[1..], g, hash);
      AccessCons(Adjusted(rows[0], g), Merged(rows[1..], g), hash);
      assert rows[0] in rows;
      assert g.ids == [g.ids[0]] + g.ids[1..];
    }
  }

  /** Of a group's rows only the kept one is left, with the group's accesses. */
  lemma {:induction false} GroupAccess(rows: seq<Row>, g: Group)
    requires |g.ids| > 1 && Distinct(g.ids) && Fits(rows, g) && DistinctIds(rows)
    ensures AccessOf(Merged(rows, g), g.hash) == if HasId(rows, g.ids[0]) then g.total else 0
  {
    if rows == [] {
    } else {
      MergedHead(rows, g);
      GroupAccess(rows[1..], g);
      AccessCons(Adjusted(rows[0], g), Merged(rows[1..], g), g.hash);
      assert rows[0] in rows;
      assert g.ids == [g.ids[0]] + g.ids[1..];
      MovedIsKept(g, g.ids[0]);
      assert HasId(rows, g.ids[0]) <==> rows[0].id == g.ids[0] || HasId(rows[1..], g.ids[0]);
      assert !HasId(rows[1..], rows[0].id);
    }
  }

  function RestOf(rows: seq<Row>, hash: Option<string>): int {
    if rows == [] then 0
    else (if rows[0].hash == hash then 0 else rows[0].access) + RestOf(rows[1..], hash)
  }

  lemma {:induction false} TotalSplits(rows: seq<Row>, hash: Option<string>)
    ensures TotalAccess(rows) == AccessOf(rows, hash) + RestOf(rows, hash)
  {
    if rows == [] {
    } else {
      TotalSplits(rows[1..], hash);
    }
  }

  lemma {:induction false} RestKept(rows: seq<Row>, g: Group)
    requires |g.ids| > 1 && Fits(rows, g)
    ensures RestOf(Merged(rows, g), g.hash) == RestOf(rows, g.hash)
  {
    if rows == [] {
    } else {
      MergedHead(rows, g);
      RestKept(rows[1..], g);
      AccessCons(Adjusted(rows[0], g), Merged(rows[1..], g), g.hash);
      assert rows[0] in rows;
      assert g.ids == [g.ids[0]] + g.ids[1..];
    }
  }

  /** What is true of the rows after the first n groups were merged. */
  predicate KeptBefore(groups: seq<Group>, n: nat, id: Id)
    requires n <= |groups| && Grouped(groups)
  {
    exists i :: 0 <= i < n && groups[i].ids[0] == id
  }

  ghost predicate Kin(groups: seq<Group>, n: nat, r: Row, s: Row)
    requires n <= |groups| && Grouped(groups)
  {
    && s.id == r.id && s.hash == r.hash && s.createdAt == r.createdAt
    && s.parent == (if r.parent.Some? && Dropped(groups, n, r.parent.value) then None else r.parent)
    && (!KeptBefore(groups, n, r.id) ==> s.access == r.access)
  }

  ghost predicate Progress(rows: seq<Row>, groups: seq<Group>, n: nat, now: seq<Row>)
    requires n <= |groups| && Grouped(groups)
  {
    && DistinctIds(now)
    && (forall s :: s in now ==> exists r :: r in rows && Kin(groups, n, r, s))
    && (forall s :: s in now ==> !Dropped(groups, n, s.id))
    && (forall r :: r in rows && !Dropped(groups, n, r.id) ==> HasId(now, r.id))
  }

  lemma DroppedStep(groups: seq<Group>, n: nat, id: Id)
    requires 0 < n <= |groups| && Grouped(groups)
    ensures Dropped(groups, n, id) <==> Dropped(groups, n - 1, id) || id in groups[n - 1].ids[1..]
  {}

  lemma KinStep(groups: seq<Group>, n: nat, r: Row, s: Row)
    requires 0 < n <= |groups| && Grouped(groups) && Kin(groups, n - 1, r, s)
    ensures Kin(groups, n, r, Adjusted(s, groups[n - 1]))
  {
    if r.parent.Some? {
      DroppedStep(groups, n, r.parent.value);
    }
    if KeptBefore(groups, n - 1, r.id) {
      assert KeptBefore(groups, n, r.id);
    }
  }

  lemma ProgressBack(rows: seq<Row>, groups: seq<Group>, n: nat, now: seq<Row>, s: Row)
    requires 0 < n <= |groups| && Grouped(groups) && Progress(rows, groups, n - 1, now)
    requires s in Merged(now, groups[n - 1])
    ensures !Dropped(groups, n, s.id) && exists r :: r in rows && Kin(groups, n, r, s)
  {
    var g := groups[n - 1];
    MergedMembers(now, g);
    var s0 :| s0 in now && s0.id !in g.ids[1..] && s == Adjusted(s0, g);
    var r :| r in rows && Kin(groups, n - 1, r, s0);
    KinStep(groups, n, r, s0);
    DroppedStep(groups, n, s.id);
  }

  lemma ProgressOn(rows: seq<Row>, groups: seq<Group>, n: nat, now: seq<Row>, id: Id)
    requires 0 < n <= |groups| && Grouped(groups) && HasId(now, id) && !Dropped(groups, n, id)
    ensures HasId(Merged(now, groups[n - 1]), id)
  {
    DroppedStep(groups, n, id);
    MergedMembers(now, groups[n - 1]);
    var s :| s in now && s.id == id;
    assert Adjusted(s, groups[n - 1]) in Merged(now, groups[n - 1]);
  }

  lemma ProgressStep(rows: seq<Row>, groups: seq<Group>, n: nat, now: seq<Row>)
    requires 0 < n <= |groups| && Grouped(groups) && Progress(rows, groups, n - 1, now)
    ensures Progress(rows, groups, n, Merged(now, groups[n - 1]))
  {
    var after := Merged(now, groups[n - 1]);
    MergedDistinct(now, groups[n - 1]);
    forall s | s in after ensures !Dropped(groups, n, s.id) && exists r :: r in rows && Kin(groups, n, r, s) {
      ProgressBack(rows, groups, n, now, s);
    }
    forall r | r in rows && !Dropped(groups, n, r.id) ensures HasId(after, r.id) {
      DroppedStep(groups, n, r.id);
      ProgressOn(rows, groups, n, now, r.id);
    }
  }

  lemma FitsProgress(rows: seq<Row>, groups: seq<Group>, n: nat, now: seq<Row>, g: Group)
    requires n <= |groups| && Grouped(groups) && Progress(rows, groups, n, now) && GroupOf(rows, g)
    ensures Fits(now, g)
  {
    forall s | s in now ensures s.id in g.ids <==> s.hash == g.hash {
      var r :| r in rows && Kin(groups, n, r, s);
    }
  }

  /** A row belongs to one group. */
  lemma GroupsDisjoint(rows: seq<Row>, groups: seq<Group>, i: nat, j: nat, id: Id)
    requires Answers(rows, groups) && i < |groups| && j < |groups| && id in groups[i].ids && id in groups[j].ids
    ensures i == j
  {
    assert GroupOf(rows, groups[i]) && GroupOf(rows, groups[j]);
    assert HasId(rows, id);
    var r :| r in rows && r.id == id;
  }

  lemma KeptNotDropped(rows: seq<Row>, groups: seq<Group>, n: nat, j: nat)
    requires Answers(rows, groups) && Grouped(groups) && n <= |groups| && j < |groups|
    ensures !Dropped(groups, n, groups[j].ids[0])
  {
    var id := groups[j].ids[0];
    if Dropped(groups, n, id) {
      var i :| 0 <= i < n && id in groups[i].ids[1..];
      GroupsDisjoint(rows, groups, i, j, id);
      assert GroupOf(rows, groups[j]);
      MovedIsKept(groups[j], id);
    }
  }

  /** The rows after n groups, had no statement been refused. */
  function RowsAfter(rows: seq<Row>, groups: seq<Group>, n: nat): seq<Row>
    requires n <= |groups| && Grouped(groups)
  {
    if n == 0 then rows else Merged(RowsAfter(rows, groups, n - 1), groups[n - 1])
  }

  lemma {:induction false} RunRows(db: Db, groups: seq<Group>, n: nat, pinned: set<Id>)
    requires n <= |groups| && Grouped(groups) && Run(db, groups, n, pinned).1
    ensures Run(db, groups, n, pinned).0.rows == RowsAfter(db.rows, groups, n)
  {
    if n == 0 {
    } else {
      RunRows(db, groups, n - 1, pinned);
    }
  }

  lemma NoneDropped(groups: seq<Group>, r: Row)
    requires Grouped(groups)
    ensures !Dropped(groups, 0, r.id) && Kin(groups, 0, r, r)
  {}

  lemma ProgressStart(rows: seq<Row>, groups: seq<Group>)
    requires DistinctIds(rows) && Grouped(groups)
    ensures Progress(rows, groups, 0, rows)
  {
    forall s | s in rows ensures !Dropped(groups, 0, s.id) && HasId(rows, s.id) && exists r :: r in rows && Kin(groups, 0, r, s) {
      NoneDropped(groups, s);
    }
  }

  lemma {:induction false} RowsProgress(rows: seq<Row>, groups: seq<Group>, n: nat)
    requires DistinctIds(rows) && Grouped(groups) && n <= |groups|
    ensures Progress(rows, groups, n, RowsAfter(rows, groups, n))
  {
    if n == 0 {
      ProgressStart(rows, groups);
    } else {
      RowsProgress(rows, groups, n - 1);
      ProgressStep(rows, groups, n, RowsAfter(rows, groups, n - 1));
    }
  }

  lemma StepFits(rows: seq<Row>, groups: seq<Group>, n: nat, now: seq<Row>)
    requires Answers(rows, groups) && Grouped(groups) && n < |groups| && Progress(rows, groups, n, now)
    ensures GroupOf(rows, groups[n]) && DistinctIds(now) && Fits(now, groups[n]) && HasId(now, groups[n].ids[0])
  {
    var g := groups[n];
    assert GroupOf(rows, g);
    FitsProgress(rows, groups, n, now, g);
    KeptNotDropped(rows, groups, n, n);
    assert g.ids[0] in g.ids;
  }

  lemma StepKeepsAccess(now: seq<Row>, g: Group, hash: Option<string>)
    requires |g.ids| > 1 && Distinct(g.ids) && Fits(now, g) && DistinctIds(now) && HasId(now, g.ids[0])
    requires AccessOf(now, g.hash) == g.total
    ensures AccessOf(Merged(now, g), hash) == AccessOf(now, hash)
    ensures TotalAccess(Merged(now, g)) == TotalAccess(now)
  {
    GroupAccess(now, g);
    if hash != g.hash {
      OthersKeepAccess(now, g, hash);
    }
    TotalSplits(now, g.hash);
    TotalSplits(Merged(now, g), g.hash);
    RestKept(now, g);
  }

  lemma RowsStep(rows: seq<Row>, groups: seq<Group>, n: nat, hash: Option<string>)
    requires DistinctIds(rows) && Answers(rows, groups) && Grouped(groups) && n < |groups|
    requires AccessOf(RowsAfter(rows, groups, n), groups[n].hash) == AccessOf(rows, groups[n].hash)
    ensures AccessOf(RowsAfter(rows, groups, n + 1), hash) == AccessOf(RowsAfter(rows, groups, n), hash)
    ensures TotalAccess(RowsAfter(rows, groups, n + 1)) == TotalAccess(RowsAfter(rows, groups, n))
  {
    var now := RowsAfter(rows, groups, n);
    RowsProgress(rows, groups, n);
    StepFits(rows, groups, n, now);
    StepKeepsAccess(now, groups[n], hash);
  }

  /** A merge moves accesses around within a hash, never between hashes, and loses none. */
  lemma {:induction false} RowsKeepAccess(rows: seq<Row>, groups: seq<Group>, n: nat, hash: Option<string>)
    requires DistinctIds(rows) && Answers(rows, groups) && Grouped(groups) && n <= |groups|
    ensures AccessOf(RowsAfter(rows, groups, n), hash) == AccessOf(rows, hash)
    ensures TotalAccess(RowsAfter(rows, groups, n)) == TotalAccess(rows)
  {
    if n == 0 {
    } else {
      RowsKeepAccess(rows, groups, n - 1, hash);
      RowsKeepAccess(rows, groups, n - 1, groups[n - 1].hash);
      RowsStep(rows, groups, n - 1, hash);
    }
  }

  // ---- the results ----

  lemma GroupOfPair(rows: seq<Row>, groups: seq<Group>, r: Row, s: Row) returns (i: nat)
    requires CoversRepeats(rows, groups) && r in rows && s in rows && r != s && r.hash == s.hash
    ensures i < |groups| && groups[i].hash == r.hash
  {
    var j :| 0 <= j < |rows| && rows[j] == r;
    var k :| 0 <= k < |rows| && rows[k] == s;
    assert HasGroup(groups, r.hash) by {
      if j < k {
        assert rows[j].hash == rows[k].hash;
      } else {
        assert rows[k].hash == rows[j].hash;
      }
    }
    i :| 0 <= i < |groups| && groups[i].hash == r.hash;
  }

  lemma SurvivorIsKept(rows: seq<Row>, groups: seq<Group>, i: nat, r: Row)
    requires Answers(rows, groups) && Grouped(groups) && i < |groups|
    requires r in rows && r.hash == groups[i].hash && !Dropped(groups, |groups|, r.id)
    ensures r.id == groups[i].ids[0]
  {
    assert GroupOf(rows, groups[i]);
    assert groups[i].ids == [groups[i].ids[0]] + groups[i].ids[1..];
  }

  lemma SurvivorIsOldest(rows: seq<Row>, groups: seq<Group>, r0: Row, r: Row)
    requires DistinctIds(rows) && Answers(rows, groups) && CoversRepeats(rows, groups) && Grouped(groups)
    requires r0 in rows && r in rows && r0.hash == r.hash && !Dropped(groups, |groups|, r0.id)
    ensures r0.createdAt <= r.createdAt
    ensures !Dropped(groups, |groups|, r.id) ==> r0 == r
  {
    if r0 != r {
      var i := GroupOfPair(rows, groups, r0, r);
      assert GroupOf(rows, groups[i]);
      SurvivorIsKept(rows, groups, i, r0);
      if !Dropped(groups, |groups|, r.id) {
        SurvivorIsKept(rows, groups, i, r);
      }
    }
  }

  /** The row an id ends up at: it has the same hash, and is not dropped. */
  lemma {:induction false} KeepStays(rows: seq<Row>, groups: seq<Group>, n: nat, r: Row) returns (k: Row)
    requires DistinctIds(rows) && Answers(rows, groups) && Grouped(groups) && n <= |groups| && r in rows
    ensures k in rows && k.id == KeepOf(groups, n, r.id) && k.hash == r.hash && !Dropped(groups, n, k.id)
  {
    if n == 0 {
      k := r;
    } else {
      var m := KeepStays(rows, groups, n - 1, r);
      var g := groups[n - 1];
      assert GroupOf(rows, g);
      if m.id in g.ids[1..] {
        assert HasId(rows, g.ids[0]);
        k :| k in rows && k.id == g.ids[0];
        assert k.id in g.ids && m.id in g.ids;
        KeptNotDropped(rows, groups, n, n - 1);
      } else {
        k := m;
        DroppedStep(groups, n, k.id);
      }
    }
  }

  /** After a merge, every row left is the oldest of its hash, and the only one. Rows without a hash count as
      one hash: they are merged into the oldest of them, whatever they say. */
  lemma EachHashKeepsItsOldest(db: Db, groups: seq<Group>, pinned: set<Id>, s: Row, r: Row)
    requires WellFormed(db) && Answers(db.rows, groups) && CoversRepeats(db.rows, groups) && Grouped(groups)
    requires Run(db, groups, |groups|, pinned).1
    requires s in Run(db, groups, |groups|, pinned).0.rows && r in db.rows && r.hash == s.hash
    ensures exists r0 :: r0 in db.rows && Kin(groups, |groups|, r0, s)
    ensures s.createdAt <= r.createdAt
    ensures HasId(Run(db, groups, |groups|, pinned).0.rows, r.id) <==> r.id == s.id
  {
    RunRows(db, groups, |groups|, pinned);
    RowsProgress(db.rows, groups, |groups|);
    var now := RowsAfter(db.rows, groups, |groups|);
    var r0 :| r0 in db.rows && Kin(groups, |groups|, r0, s);
    SurvivorIsOldest(db.rows, groups, r0, r);
    if HasId(now, r.id) {
      var s' :| s' in now && s'.id == r.id;
      assert !Dropped(groups, |groups|, r.id);
    }
    assert s in now;
  }

  lemma KinHash(rows: seq<Row>, groups: seq<Group>, k: Row, s: Row)
    requires DistinctIds(rows) && Grouped(groups) && k in rows && s.id == k.id && exists r :: r in rows && Kin(groups, |groups|, r, s)
    ensures s.hash == k.hash
  {
    var r :| r in rows && Kin(groups, |groups|, r, s);
  }

  lemma KeptIsLeft(rows: seq<Row>, groups: seq<Group>, r: Row) returns (s: Row)
    requires DistinctIds(rows) && Answers(rows, groups) && Grouped(groups) && r in rows
    requires Progress(rows, groups, |groups|, RowsAfter(rows, groups, |groups|))
    ensures s in RowsAfter(rows, groups, |groups|) && s.hash == r.hash && s.id == KeepOf(groups, |groups|, r.id)
  {
    var now := RowsAfter(rows, groups, |groups|);
    var k := KeepStays(rows, groups, |groups|, r);
    assert HasId(now, k.id);
    s :| s in now && s.id == k.id;
    KinHash(rows, groups, k, s);
  }

  /** No hash disappears: a row that goes leaves the one it was merged into. */
  lemma EveryRowHasItsKept(db: Db, groups: seq<Group>, pinned: set<Id>, r: Row)
    requires WellFormed(db) && Answers(db.rows, groups) && Grouped(groups) && Run(db, groups, |groups|, pinned).1
    requires r in db.rows
    ensures exists s :: s in Run(db, groups, |groups|, pinned).0.rows
                     && s.hash == r.hash && s.id == KeepOf(groups, |groups|, r.id)
  {
    RunRows(db, groups, |groups|, pinned);
    RowsProgress(db.rows, groups, |groups|);
    var s := KeptIsLeft(db.rows, groups, r);
  }

  /** The links are the old ones with each end moved to the kept row; the tables stay well formed, so that
      no end dangles. */
  lemma LinksFollowTheirRows(db: Db, groups: seq<Group>, pinned: set<Id>)
    requires WellFormed(db) && Answers(db.rows, groups) && Grouped(groups) && Run(db, groups, |groups|, pinned).1
    ensures Run(db, groups, |groups|, pinned).0.links == Redirected(db.links, groups, |groups|)
    ensures WellFormed(Run(db, groups, |groups|, pinned).0)
  {
    forall i | 0 <= i < |groups| ensures Distinct(groups[i].ids) {
      assert GroupOf(db.rows, groups[i]);
    }
    RunLinks(db, groups, |groups|, pinned);
    RunRows(db, groups, |groups|, pinned);
    RowsProgress(db.rows, groups, |groups|);
    var d := Run(db, groups, |groups|, pinned).0;
    forall l | l in d.links ensures HasId(d.rows, l.source) && HasId(d.rows, l.target) {
      var i :| 0 <= i < |d.links| && d.links[i] == l;
      assert db.links[i] in db.links;
      EndSurvives(db, groups, pinned, db.links[i].source);
      EndSurvives(db, groups, pinned, db.links[i].target);
    }
  }

  lemma EndSurvives(db: Db, groups: seq<Group>, pinned: set<Id>, id: Id)
    requires WellFormed(db) && Answers(db.rows, groups) && Grouped(groups) && Run(db, groups, |groups|, pinned).1
    requires HasId(db.rows, id)
    ensures HasId(Run(db, groups, |groups|, pinned).0.rows, KeepOf(groups, |groups|, id))
  {
    var r :| r in db.rows && r.id == id;
    EveryRowHasItsKept(db, groups, pinned, r);
  }

  /** Accesses are conserved, in all and per hash. */
  lemma AccessesAreConserved(db: Db, groups: seq<Group>, pinned: set<Id>, hash: Option<string>)
    requires WellFormed(db) && Answers(db.rows, groups) && Grouped(groups) && Run(db, groups, |groups|, pinned).1
    ensures AccessOf(Run(db, groups, |groups|, pinned).0.rows, hash) == AccessOf(db.rows, hash)
    ensures TotalAccess(Run(db, groups, |groups|, pinned).0.rows) == TotalAccess(db.rows)
  {
    RunRows(db, groups, |groups|, pinned);
    RowsKeepAccess(db.rows, groups, |groups|, hash);
  }

  // ---- counts ----

  function IdSet(rows: seq<Row>): set<Id> { set r | r in rows :: r.id }

  lemma {:induction false} IdsCounted(rows: seq<Row>)
    requires DistinctIds(rows)
    ensures |IdSet(rows)| == |rows|
  {
    if rows != [] {
      IdsCounted(rows[1..]);
      assert rows == [rows[0]] + rows[1..];
      assert IdSet(rows) == IdSet(rows[1..]) + {rows[0].id};
      assert rows[0].id !in IdSet(rows[1..]);
    } else {
      assert IdSet(rows) == {};
    }
  }

  lemma {:induction false} DistinctCounted(ids: seq<Id>)
    requires Distinct(ids)
    ensures |SetOf(ids)| == |ids|
  {
    if ids == [] {
      assert SetOf(ids) == {};
    } else {
      DistinctCounted(ids[1..]);
      assert ids == [ids[0]] + ids[1..];
      assert SetOf(ids) == SetOf(ids[1..]) + {ids[0]};
      assert ids[0] !in ids[1..];
    }
  }

  lemma MergedIds(now: seq<Row>, g: Group, id: Id)
    requires |g.ids| > 1
    ensures id in IdSet(Merged(now, g)) <==> id in IdSet(now) && id !in g.ids[1..]
  {
    MergedMembers(now, g);
    if id in IdSet(now) && id !in g.ids[1..] {
      var r :| r in now && r.id == id;
      assert Adjusted(r, g) in Merged(now, g);
    }
  }

  lemma MergedCounted(now: seq<Row>, g: Group)
    requires |g.ids| > 1 && Distinct(g.ids) && DistinctIds(now) && SetOf(g.ids[1..]) <= IdSet(now)
    ensures |Merged(now, g)| == |now| - (|g.ids| - 1)
  {
    MergedDistinct(now, g);
    IdsCounted(now);
    IdsCounted(Merged(now, g));
    DistinctCounted(g.ids[1..]);
    assert IdSet(Merged(now, g)) == IdSet(now) - SetOf(g.ids[1..]) by {
      forall id ensures id in IdSet(Merged(now, g)) <==> id in IdSet(now) - SetOf(g.ids[1..]) {
        MergedIds(now, g, id);
      }
    }
  }

  lemma StepCounted(rows: seq<Row>, groups: seq<Group>, n: nat)
    requires DistinctIds(rows) && Answers(rows, groups) && Grouped(groups) && n < |groups|
    ensures |RowsAfter(rows, groups, n + 1)| == |RowsAfter(rows, groups, n)| - (|groups[n].ids| - 1)
  {
    var g, now := groups[n], RowsAfter(rows, groups, n);
    RowsProgress(rows, groups, n);
    assert GroupOf(rows, g);
    forall id | id in g.ids[1..] ensures id in IdSet(now) {
      assert id in g.ids && HasId(rows, id);
      NotYetDropped(rows, groups, n, id);
      assert HasId(now, id);
    }
    MergedCounted(now, g);
  }

  lemma {:induction false} RowsCounted(rows: seq<Row>, groups: seq<Group>, n: nat)
    requires DistinctIds(rows) && Answers(rows, groups) && Grouped(groups) && n <= |groups|
    ensures |RowsAfter(rows, groups, n)| == |rows| - DroppedCount(groups, n)
  {
    if n == 0 {
      assert RowsAfter(rows, groups, 0) == rows;
    } else {
      RowsCounted(rows, groups, n - 1);
      StepCounted(rows, groups, n - 1);
    }
  }

  lemma NotYetDropped(rows: seq<Row>, groups: seq<Group>, n: nat, id: Id)
    requires Answers(rows, groups) && Grouped(groups) && n < |groups| && id in groups[n].ids
    ensures !Dropped(groups, n, id)
  {
    if Dropped(groups, n, id) {
      var i :| 0 <= i < n && id in groups[i].ids[1..];
      GroupsDisjoint(rows, groups, i, n, id);
    }
  }

  /** The reported count, which a dry run reports as well, is the number of rows that go. */
  lemma CountsAreExact(db: Db, groups: seq<Group>, pinned: set<Id>)
    requires WellFormed(db) && Answers(db.rows, groups) && Grouped(groups) && Run(db, groups, |groups|, pinned).1
    ensures |Run(db, groups, |groups|, pinned).0.rows| == |db.rows| - DroppedCount(groups, |groups|)
  {
    RunRows(db, groups, |groups|, pinned);
    RowsCounted(db.rows, groups, |groups|);
  }

  /** Two rows have this hash. */
  ghost predicate Shared(rows: seq<Row>, hash: Option<string>) {
    exists i, j :: 0 <= i < j < |rows| && rows[i].hash == hash && rows[j].hash == hash
  }

  /** The accesses of those rows whose hash is shared in all. */
  ghost function SharedAccess(rows: seq<Row>, all: seq<Row>): int {
    if rows == [] then 0 else (if Shared(all, rows[0].hash) then rows[0].access else 0) + SharedAccess(rows[1..], all)
  }

  function AccessIn(rows: seq<Row>, hashes: set<Option<string>>): int {
    if rows == [] then 0 else (if rows[0].hash in hashes then rows[0].access else 0) + AccessIn(rows[1..], hashes)
  }

  lemma {:induction false} AccessWithOne(rows: seq<Row>, hashes: set<Option<string>>, hash: Option<string>)
    requires hash !in hashes
    ensures AccessIn(rows, hashes + {hash}) == AccessIn(rows, hashes) + AccessOf(rows, hash)
  {
    if rows == [] {
    } else {
      AccessWithOne(rows[1..], hashes, hash);
    }
  }

  lemma {:induction false} NoneIn(rows: seq<Row>)
    ensures AccessIn(rows, {}) == 0
  {
    if rows == [] {
    } else {
      NoneIn(rows[1..]);
    }
  }

  function HashesOf(groups: seq<Group>, n: nat): set<Option<string>>
    requires n <= |groups|
  {
    if n == 0 then {} else HashesOf(groups, n - 1) + {groups[n - 1].hash}
  }

  lemma {:induction false} HashesMembers(groups: seq<Group>, n: nat, hash: Option<string>)
    requires n <= |groups|
    ensures hash in HashesOf(groups, n) <==> exists i :: 0 <= i < n && groups[i].hash == hash
  {
    if n == 0 {
    } else {
      HashesMembers(groups, n - 1, hash);
    }
  }

  lemma {:induction false} MergedIn(rows: seq<Row>, groups: seq<Group>, n: nat)
    requires n <= |groups| && Answers(rows, groups)
    ensures MergedCount(groups, n) == AccessIn(rows, HashesOf(groups, n))
  {
    if n == 0 {
      NoneIn(rows);
    } else {
      MergedIn(rows, groups, n - 1);
      HashesMembers(groups, n - 1, groups[n - 1].hash);
      AccessWithOne(rows, HashesOf(groups, n - 1), groups[n - 1].hash);
      assert GroupOf(rows, groups[n - 1]);
    }
  }

  lemma SharedIffGrouped(rows: seq<Row>, groups: seq<Group>, hash: Option<string>)
    requires Answers(rows, groups) && CoversRepeats(rows, groups)
    ensures Shared(rows, hash) <==> HasGroup(groups, hash)
  {
    if HasGroup(groups, hash) {
      var n :| 0 <= n < |groups| && groups[n].hash == hash;
      var g := groups[n];
      assert GroupOf(rows, g);
      assert g.ids[0] in g.ids && g.ids[1] in g.ids && g.ids[0] != g.ids[1];
      var i :| 0 <= i < |rows| && rows[i].id == g.ids[0];
      var j :| 0 <= j < |rows| && rows[j].id == g.ids[1];
      assert rows[i] in rows && rows[j] in rows;
      assert i < j || j < i;
    }
  }

  lemma {:induction false} SharedIn(rows: seq<Row>, all: seq<Row>, hashes: set<Option<string>>)
    requires forall hash :: hash in hashes <==> Shared(all, hash)
    ensures SharedAccess(rows, all) == AccessIn(rows, hashes)
  {
    if rows == [] {
    } else {
      SharedIn(rows[1..], all, hashes);
    }
  }

  /** The reported accesses, of a dry run too, are those of all rows that share their hash with another. */
  lemma MergedIsSharedAccess(rows: seq<Row>, groups: seq<Group>)
    requires Answers(rows, groups) && CoversRepeats(rows, groups)
    ensures MergedCount(groups, |groups|) == SharedAccess(rows, rows)
  {
    MergedIn(rows, groups, |groups|);
    forall hash ensures hash in HashesOf(groups, |groups|) <==> Shared(rows, hash) {
      HashesMembers(groups, |groups|, hash);
      SharedIffGrouped(rows, groups, hash);
    }
    SharedIn(rows, rows, HashesOf(groups, |groups|));
  }

  // ---- a refused statement ----

  lemma {:induction false} SetAccessTotal(rows: seq<Row>, r: Row, total: int)
    requires DistinctIds(rows) && r in rows
    ensures TotalAccess(SetAccess(rows, r.id, total)) == TotalAccess(rows) + total - r.access
  {
    var updated := SetAccess(rows, r.id, total);
    assert updated[1..] == SetAccess(rows[1..], r.id, total);
    if r == rows[0] {
      SetAccessElsewhere(rows[1..], r.id, total);
    } else {
      SetAccessTotal(rows[1..], r, total);
    }
  }

  lemma {:induction false} SetAccessElsewhere(rows: seq<Row>, id: Id, total: int)
    requires forall r :: r in rows ==> r.id != id
    ensures SetAccess(rows, id, total) == rows
  {
    if rows == [] {
    } else {
      SetAccessElsewhere(rows[1..], id, total);
    }
  }

  lemma {:induction false} FailsSomewhere(db: Db, groups: seq<Group>, n: nat, pinned: set<Id>) returns (m: nat)
    requires n <= |groups| && Grouped(groups) && !Run(db, groups, n, pinned).1
    ensures m < n && Run(db, groups, m, pinned).1
    ensures Run(db, groups, n, pinned).0.rows
         == SetAccess(Run(db, groups, m, pinned).0.rows, groups[m].ids[0], groups[m].total)
  {
    if Run(db, groups, n - 1, pinned).1 {
      m := n - 1;
    } else {
      m := FailsSomewhere(db, groups, n - 1, pinned);
    }
  }

  /** The row a group is about to be merged into, as it is by then and as it was at first. */
  lemma KeptByThen(rows: seq<Row>, groups: seq<Group>, m: nat) returns (s: Row, kept: Row)
    requires DistinctIds(rows) && Answers(rows, groups) && Grouped(groups) && m < |groups|
    ensures s in RowsAfter(rows, groups, m) && s.id == kept.id == groups[m].ids[0]
    ensures kept in rows && s.access == kept.access && DistinctIds(RowsAfter(rows, groups, m))
  {
    var now := RowsAfter(rows, groups, m);
    RowsProgress(rows, groups, m);
    StepFits(rows, groups, m, now);
    s :| s in now && s.id == groups[m].ids[0];
    kept :| kept in rows && Kin(groups, m, kept, s);
    KeptOnce(rows, groups, m);
  }

  lemma RefusedTotal(rows: seq<Row>, groups: seq<Group>, m: nat, s: Row)
    requires DistinctIds(rows) && Answers(rows, groups) && Grouped(groups) && m < |groups|
    requires s in RowsAfter(rows, groups, m) && s.id == groups[m].ids[0] && DistinctIds(RowsAfter(rows, groups, m))
    ensures var left := SetAccess(RowsAfter(rows, groups, m), groups[m].ids[0], groups[m].total);
            && TotalAccess(left) == TotalAccess(rows) + AccessOf(rows, groups[m].hash) - s.access
            && |left| == |rows| - DroppedCount(groups, m)
  {
    var now := RowsAfter(rows, groups, m);
    assert GroupOf(rows, groups[m]);
    RowsKeepAccess(rows, groups, m, groups[m].hash);
    RowsCounted(rows, groups, m);
    SetAccessTotal(now, s, groups[m].total);
    SetAccessLength(now, groups[m].ids[0], groups[m].total);
  }

  /** A refused statement leaves the accesses of its group counted twice: the kept row already has the
      group's total, and the rows it was to replace are still there. */
  lemma FailureCountsTwice(db: Db, groups: seq<Group>, pinned: set<Id>)
    returns (m: nat, kept: Row)
    requires WellFormed(db) && Answers(db.rows, groups) && Grouped(groups) && !Run(db, groups, |groups|, pinned).1
    ensures m < |groups| && kept in db.rows && kept.id == groups[m].ids[0]
    ensures TotalAccess(Run(db, groups, |groups|, pinned).0.rows)
         == TotalAccess(db.rows) + AccessOf(db.rows, groups[m].hash) - kept.access
    ensures |Run(db, groups, |groups|, pinned).0.rows| == |db.rows| - DroppedCount(groups, m)
  {
    m := FailsSomewhere(db, groups, |groups|, pinned);
    RunRows(db, groups, m, pinned);
    var s;
    s, kept := KeptByThen(db.rows, groups, m);
    RefusedTotal(db.rows, groups, m, s);
  }

  lemma {:induction false} SetAccessLength(rows: seq<Row>, id: Id, total: int)
    ensures |SetAccess(rows, id, total)| == |rows|
  {
    if rows == [] {
    } else {
      SetAccessLength(rows[1..], id, total);
    }
  }

  lemma KeptOnce(rows: seq<Row>, groups: seq<Group>, n: nat)
    requires Answers(rows, groups) && Grouped(groups) && n < |groups|
    ensures !KeptBefore(groups, n, groups[n].ids[0])
  {
    var id := groups[n].ids[0];
    if KeptBefore(groups, n, id) {
      var i :| 0 <= i < n && groups[i].ids[0] == id;
      GroupsDisjoint(rows, groups, i, n, id);
    }
  }
}
