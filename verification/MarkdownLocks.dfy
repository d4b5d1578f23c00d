/** The filesystem lock registry: one lease file and one fence file per slug, named after the slug
    with '/' flattened to "__", and every write of a file going through a sibling "<name>.tmp". */
module MarkdownLocks {
  import opened Collections
  import opened LeaseProtocol

  /** A lease file parses to a payload or does not parse at all. */
  datatype LeaseFile = Payload(slug: Slug, lease: Lease) | Garbled

  /** A fence file holds an integer or something int() rejects. */
  datatype FenceFile = Number(n: int) | NotANumber

  /** The two directories, by file name. */
  datatype Vault = Vault(locks: map<string, LeaseFile>, fences: map<string, FenceFile>)

  const EMPTY_VAULT := Vault(map[], map[])

  function Flat(c: char): string { if c == '/' then "__" else [c] }

  function SafeName(slug: Slug): string {
    if slug == [] then []
    else Flat(slug[0]) + SafeName(slug[1..])
  }

  function LockName(slug: Slug): string { SafeName(slug) + ".json" }

  /** Write to "<name>.tmp", then move that file over name: afterwards no "<name>.tmp" is left. */
  function AtomicWrite<F>(dir: map<string, F>, name: string, content: F): map<string, F> {
    (dir - {name + ".tmp"})[name := content]
  }

  function ReadLockFile(v: Vault, name: string): Option<LeaseFile> {
    if name in v.locks && v.locks[name].Payload? then Some(v.locks[name]) else None
  }

  /** As the name of a fence file these mean the fence directory or its parent. */
  predicate NamesDirectory(name: string) { name == "" || name == "." || name == ".." }

  function ReadFence(v: Vault, slug: Slug): int {
    var name := SafeName(slug);
    if !NamesDirectory(name) && name in v.fences && v.fences[name].Number? then v.fences[name].n else 0
  }

  /** A file cannot be moved over a directory. The temporary file stays behind: for ".." in the fence
      directory, otherwise beside it, under a name that is no lease file's. */
  function Bumped(v: Vault, slug: Slug): Vault {
    var name, token := SafeName(slug), ReadFence(v, slug) + 1;
    if !NamesDirectory(name) then v.(fences := AtomicWrite(v.fences, name, Number(token)))
    else if name == ".." then v.(fences := v.fences["...tmp" := Number(token)])
    else v
  }

  /** No outcome when the operating system's error comes through. */
  function AcquireStep(v: Vault, now: int, slug: Slug, holder: string, ttl: int): (Vault, Option<Outcome>) {
    var name := LockName(slug);
    var existing := ReadLockFile(v, name);
    if existing.Some? && existing.value.lease.expiresAt > now then (v, Some(Conflict))
    else
      var v1 := Bumped(if existing.Some? then v.(locks := v.locks - {name}) else v, slug);
      if NamesDirectory(SafeName(slug)) then (v1, None)
      else if name in v1.locks then (v1, Some(Conflict))   // the exclusive create fails
      else
        var token, expires := ReadFence(v, slug) + 1, now + ttl;
        (v1.(locks := v1.locks[name := Payload(slug, Lease(holder, token, now, expires))]),
         Some(Granted(Record(slug, holder, token, now, expires))))
  }

  function RenewStep(v: Vault, now: int, slug: Slug, holder: string, token: int, ttl: int): (Vault, Outcome) {
    var file := ReadLockFile(v, LockName(slug));
    if ReadFence(v, slug) != token || file.None? then (v, Conflict)
    else if file.value.lease.holder != holder || file.value.lease.token != token then (v, Conflict)
    else
      var expires := now + ttl;
      var renewed := file.value.(lease := file.value.lease.(expiresAt := expires));
      (v.(locks := AtomicWrite(v.locks, LockName(slug), renewed)),
       Granted(Record(slug, holder, token, now, expires)))
  }

  function ReleaseStep(v: Vault, slug: Slug, holder: string, token: int): (Vault, Outcome) {
    var file := ReadLockFile(v, LockName(slug));
    if file.None? || file.value.lease.holder != holder || file.value.lease.token != token
       || ReadFence(v, slug) != token
    then (v, Released(false))
    else (v.(locks := v.locks - {LockName(slug)}), Released(true))
  }

  function FileStep(v: Vault, c: Call): (Vault, Option<Outcome>) {
    match c.op
    case TryAcquire(slug, holder, ttl) => AcquireStep(v, c.now, slug, holder, ttl)
    case Renew(slug, holder, token, ttl) =>
      var (v', o) := RenewStep(v, c.now, slug, holder, token, ttl);
      (v', Some(o))
    case Release(slug, holder, token) =>
      var (v', o) := ReleaseStep(v, slug, holder, token);
      (v', Some(o))
  }

  class MarkdownLockRegistry {
    var locks: map<string, LeaseFile>
    var fences: map<string, FenceFile>

    function View(): Vault
      reads this
    {
      Vault(locks, fences)
    }

    constructor ()
      ensures View() == EMPTY_VAULT
    {
      locks := map[];
      fences := map[];
    }

    /** None: moving the temporary file over a directory fails. */
    method BumpFence(slug: Slug) returns (token: Option<int>)
      modifies this`fences
      ensures token.None? <==> NamesDirectory(SafeName(slug))
      ensures token.Some? ==> token.value == ReadFence(old(View()), slug) + 1
      ensures View() == Bumped(old(View()), slug)
    {
      var newToken := ReadFence(View(), slug) + 1;
      var name := SafeName(slug);
      if NamesDirectory(name) {
        if name == ".." {
          fences := fences["...tmp" := Number(newToken)];
        }
        return None;
      }
      fences := AtomicWrite(fences, name, Number(newToken));
      token := Some(newToken);
    }

    method TryAcquire(now: int, slug: Slug, holder: string, ttl: int) returns (o: Option<Outcome>)
      modifies this
      ensures (View(), o) == FileStep(old(View()), Call(now, Op.TryAcquire(slug, holder, ttl)))
    {
      var name := LockName(slug);
      var existing := ReadLockFile(View(), name);
      if existing.Some? {
        if existing.value.lease.expiresAt > now {
          return Some(Conflict);
        }
        locks := locks - {name};
      }
      var token := BumpFence(slug);
      if token.None? {
        return None;
      }
      if name in locks {
        return Some(Conflict);
      }
      locks := locks[name := Payload(slug, Lease(holder, token.value, now, now + ttl))];
      return Some(Granted(Record(slug, holder, token.value, now, now + ttl)));
    }

    method Renew(now: int, slug: Slug, holder: string, token: int, ttl: int) returns (o: Outcome)
      modifies this
      ensures (View(), Some(o)) == FileStep(old(View()), Call(now, Op.Renew(slug, holder, token, ttl)))
    {
      if ReadFence(View(), slug) != token {
        return Conflict;
      }
      var file := ReadLockFile(View(), LockName(slug));
      if file.None? {
        return Conflict;
      }
      if file.value.lease.holder != holder || file.value.lease.token != token {
        return Conflict;
      }
      var renewed := file.value.(lease := file.value.lease.(expiresAt := now + ttl));
      locks := AtomicWrite(locks, LockName(slug), renewed);
      return Granted(Record(slug, holder, token, now, now + ttl));
    }

    method Release(now: int, slug: Slug, holder: string, token: int) returns (o: Outcome)
      modifies this
      ensures (View(), Some(o)) == FileStep(old(View()), Call(now, Op.Release(slug, holder, token)))
    {
      var file := ReadLockFile(View(), LockName(slug));
      if file.None? {
        return Released(false);
      }
      if file.value.lease.holder != holder || file.value.lease.token != token {
        return Released(false);
      }
      if ReadFence(View(), slug) != token {
        return Released(false);
      }
      locks := locks - {LockName(slug)};
      return Released(true);
    }
  }

  // ---- runs ----

  function VaultAt(v0: Vault, calls: seq<Call>, i: nat): Vault
    requires i <= |calls|
  {
    if i == 0 then v0 else FileStep(VaultAt(v0, calls, i - 1), calls[i - 1]).0
  }

  function FileOutcomeAt(v0: Vault, calls: seq<Call>, i: nat): Option<Outcome>
    requires i < |calls|
  {
    FileStep(VaultAt(v0, calls, i), calls[i]).1
  }

  ghost predicate OverSlugs(calls: seq<Call>, slugs: set<Slug>) {
    forall i :: 0 <= i < |calls| ==> calls[i].op.slug in slugs
  }

  /** Started empty, the two registries answer every call of the run alike. */
  ghost predicate SameAnswers(calls: seq<Call>) {
    forall i :: 0 <= i < |calls| ==> FileOutcomeAt(EMPTY_VAULT, calls, i) == Some(OutcomeAt(EMPTY, calls, i))
  }

  /** No slug's fence file is a directory, no two slugs share a file name, and no slug's fence file is
      another's temporary file. */
  ghost predicate Separate(slugs: set<Slug>) {
    && (forall s :: s in slugs ==> !NamesDirectory(SafeName(s)))
    && (forall s, t :: s in slugs && t in slugs && s != t ==> SafeName(s) != SafeName(t))
    && (forall s, t :: s in slugs && t in slugs ==> SafeName(t) != SafeName(s) + ".tmp")
  }

  // ---- refinement ----

  /** The slug's files hold exactly its rows. */
  predicate Matches(v: Vault, t: Table, s: Slug) {
    && ReadFence(v, s) == FenceOf(t, s)
    && (LockName(s) in v.locks <==> s in t.leases)
    && (s in t.leases ==> v.locks[LockName(s)] == Payload(s, t.leases[s]))
  }

  /** The files of these slugs hold exactly the table's rows. */
  ghost predicate Represents(v: Vault, t: Table, slugs: set<Slug>) { forall s :: s in slugs ==> Matches(v, t, s) }

  lemma TmpNameIsNoLockName(a: string, b: string)
    ensures a + ".json" + ".tmp" != b + ".json"
    ensures a + ".json" == b + ".json" ==> a == b
  {
    var tmp, name := a + ".json" + ".tmp", b + ".json";
    assert tmp[|tmp| - 1] == 'p' && name[|name| - 1] == 'n';
    if a + ".json" == b + ".json" {
      assert (a + ".json")[..|a|] == a && (b + ".json")[..|b|] == b;
    }
  }

  lemma LockNamesApart(s: Slug, t: Slug)
    requires SafeName(s) != SafeName(t)
    ensures LockName(s) != LockName(t) && LockName(t) != LockName(s) + ".tmp"
  {
    TmpNameIsNoLockName(SafeName(s), SafeName(t));
  }

  lemma OwnStepMatches(v: Vault, t: Table, c: Call)
    requires Matches(v, t, c.op.slug) && Consistent(t) && !NamesDirectory(SafeName(c.op.slug))
    ensures FileStep(v, c).1 == Some(Step(t, c).1)
    ensures Matches(FileStep(v, c).0, Step(t, c).0, c.op.slug)
  {}

  /** A step leaves the files of another name alone. */
  lemma OtherFiles(v: Vault, c: Call, u: Slug)
    requires !NamesDirectory(SafeName(c.op.slug))
    requires SafeName(u) != SafeName(c.op.slug) && SafeName(u) != SafeName(c.op.slug) + ".tmp"
    requires LockName(u) != LockName(c.op.slug) && LockName(u) != LockName(c.op.slug) + ".tmp"
    ensures var v' := FileStep(v, c).0;
            && ReadFence(v', u) == ReadFence(v, u)
            && (LockName(u) in v'.locks <==> LockName(u) in v.locks)
            && (LockName(u) in v.locks ==> v'.locks[LockName(u)] == v.locks[LockName(u)])
  {}

  lemma OtherRows(t: Table, c: Call, u: Slug)
    requires u != c.op.slug
    ensures var t' := Step(t, c).0;
            && FenceOf(t', u) == FenceOf(t, u)
            && (u in t'.leases <==> u in t.leases) && (u in t.leases ==> t'.leases[u] == t.leases[u])
  {}

  lemma OtherStepMatches(v: Vault, t: Table, c: Call, u: Slug)
    requires Matches(v, t, u) && u != c.op.slug && !NamesDirectory(SafeName(c.op.slug))
    requires SafeName(u) != SafeName(c.op.slug) && SafeName(u) != SafeName(c.op.slug) + ".tmp"
    requires LockName(u) != LockName(c.op.slug) && LockName(u) != LockName(c.op.slug) + ".tmp"
    ensures Matches(FileStep(v, c).0, Step(t, c).0, u)
  {
    OtherFiles(v, c, u);
    OtherRows(t, c, u);
  }

  lemma StepRefines(v: Vault, t: Table, c: Call, slugs: set<Slug>)
    requires Separate(slugs) && Represents(v, t, slugs) && Consistent(t) && c.op.slug in slugs
    ensures FileStep(v, c).1 == Some(Step(t, c).1)
    ensures Represents(FileStep(v, c).0, Step(t, c).0, slugs)
  {
    var s := c.op.slug;
    OwnStepMatches(v, t, c);
    forall u | u in slugs ensures Matches(FileStep(v, c).0, Step(t, c).0, u) {
      if u != s {
        LockNamesApart(s, u);
        OtherStepMatches(v, t, c, u);
      }
    }
  }

  lemma EmptyRepresents(slugs: set<Slug>)
    ensures Represents(EMPTY_VAULT, EMPTY, slugs)
  {}

  lemma NextRefines(calls: seq<Call>, i: nat, slugs: set<Slug>)
    requires Separate(slugs) && OverSlugs(calls, slugs) && i < |calls|
    requires Represents(VaultAt(EMPTY_VAULT, calls, i), StateAt(EMPTY, calls, i), slugs)
    ensures Represents(VaultAt(EMPTY_VAULT, calls, i + 1), StateAt(EMPTY, calls, i + 1), slugs)
    ensures FileOutcomeAt(EMPTY_VAULT, calls, i) == Some(OutcomeAt(EMPTY, calls, i))
  {
    RunsStayConsistent(EMPTY, calls, i);
    StepRefines(VaultAt(EMPTY_VAULT, calls, i), StateAt(EMPTY, calls, i), calls[i], slugs);
  }

  lemma {:induction false} RunRefines(calls: seq<Call>, i: nat, slugs: set<Slug>)
    requires Separate(slugs) && OverSlugs(calls, slugs) && i <= |calls|
    ensures Represents(VaultAt(EMPTY_VAULT, calls, i), StateAt(EMPTY, calls, i), slugs)
  {
    if i == 0 {
      EmptyRepresents(slugs);
    } else {
      RunRefines(calls, i - 1, slugs);
      NextRefines(calls, i - 1, slugs);
    }
  }

  /** The fence checks that the filesystem registry makes on top of the SQLite one can never be the
      deciding ones: a payload that matches is backed by a matching counter. */
  lemma FenceChecksAreRedundant(calls: seq<Call>, i: nat, slugs: set<Slug>, slug: Slug)
    requires Separate(slugs) && OverSlugs(calls, slugs) && i <= |calls| && slug in slugs
    ensures var v := VaultAt(EMPTY_VAULT, calls, i);
            var file := ReadLockFile(v, LockName(slug));
            file.Some? ==> file.value.lease.token == ReadFence(v, slug)
  {
    RunRefines(calls, i, slugs);
    RunsStayConsistent(EMPTY, calls, i);
  }

  lemma SeparateSlugsAgree(calls: seq<Call>, slugs: set<Slug>)
    requires Separate(slugs) && OverSlugs(calls, slugs)
    ensures SameAnswers(calls)
  {
    forall i | 0 <= i < |calls|
      ensures FileOutcomeAt(EMPTY_VAULT, calls, i) == Some(OutcomeAt(EMPTY, calls, i))
    {
      RunRefines(calls, i, slugs);
      NextRefines(calls, i, slugs);
    }
  }

  // ---- where refinement fails ----

  /** A slug whose fence file is a directory: acquiring it raises, and leaves nothing but, for "..", the temporary
      file in the fence directory. */
  lemma DirectoryNameRaises(s: Slug) returns (calls: seq<Call>)
    requires NamesDirectory(SafeName(s))
    ensures OverSlugs(calls, {s}) && !SameAnswers(calls) && |calls| == 1 && FileOutcomeAt(EMPTY_VAULT, calls, 0).None?
    ensures VaultAt(EMPTY_VAULT, calls, 1) == Vault(map[], if SafeName(s) == ".." then map["...tmp" := Number(1)] else map[])
  {
    calls := [Call(0, TryAcquire(s, "a", 1))];
    assert VaultAt(EMPTY_VAULT, calls, 0) == EMPTY_VAULT;
    assert FileOutcomeAt(EMPTY_VAULT, calls, 0) != Some(OutcomeAt(EMPTY, calls, 0));
  }

  /** Two slugs on one file name: the second try_acquire is refused although its slug is free. */
  lemma SharedNameDisagrees(s: Slug, t: Slug) returns (calls: seq<Call>)
    requires s != t && SafeName(s) == SafeName(t) && !NamesDirectory(SafeName(s))
    ensures OverSlugs(calls, {s, t}) && !SameAnswers(calls)
    ensures |calls| == 2 && FileOutcomeAt(EMPTY_VAULT, calls, 1) == Some(Conflict) && OutcomeAt(EMPTY, calls, 1).Granted?
  {
    calls := [Call(0, TryAcquire(s, "a", 1)), Call(0, TryAcquire(t, "b", 1))];
    var v1 := VaultAt(EMPTY_VAULT, calls, 1);
    assert VaultAt(EMPTY_VAULT, calls, 0) == EMPTY_VAULT && StateAt(EMPTY, calls, 0) == EMPTY;
    assert ReadLockFile(v1, LockName(t)) == Some(Payload(s, Lease("a", 1, 0, 1)));
    assert t !in StateAt(EMPTY, calls, 1).leases;
    assert FileOutcomeAt(EMPTY_VAULT, calls, 1) != Some(OutcomeAt(EMPTY, calls, 1));
  }

  /** t is granted and released, s is granted in between, t is granted again. */
  function ResettingRun(s: Slug, t: Slug): seq<Call> {
    [Call(0, TryAcquire(t, "a", 1)), Call(0, Release(t, "a", 1)),
     Call(0, TryAcquire(s, "b", 1)), Call(0, TryAcquire(t, "c", 1))]
  }

  lemma ResettingFiles(s: Slug, t: Slug)
    requires SafeName(t) == SafeName(s) + ".tmp" && !NamesDirectory(SafeName(s))
    ensures var calls := ResettingRun(s, t);
            && FileOutcomeAt(EMPTY_VAULT, calls, 0) == Some(Granted(Record(t, "a", 1, 0, 1)))
            && FileOutcomeAt(EMPTY_VAULT, calls, 3) == Some(Granted(Record(t, "c", 1, 0, 1)))
  {
    var calls := ResettingRun(s, t);
    TmpNameIsNoLockName(SafeName(s), SafeName(t));
    assert |SafeName(t)| != |SafeName(s)| && !NamesDirectory(SafeName(t));
    assert VaultAt(EMPTY_VAULT, calls, 0) == EMPTY_VAULT;
    var v1 := VaultAt(EMPTY_VAULT, calls, 1);
    assert v1 == Vault(map[LockName(t) := Payload(t, Lease("a", 1, 0, 1))], map[SafeName(t) := Number(1)]);
    var v2 := VaultAt(EMPTY_VAULT, calls, 2);
    assert v2 == Vault(map[], map[SafeName(t) := Number(1)]);
    var v3 := VaultAt(EMPTY_VAULT, calls, 3);
    assert SafeName(t) !in v3.fences && LockName(t) !in v3.locks;
  }

  lemma ResettingTable(s: Slug, t: Slug)
    requires s != t
    ensures FenceOf(StateAt(EMPTY, ResettingRun(s, t), 3), t) == 1
  {
    var calls := ResettingRun(s, t);
    assert StateAt(EMPTY, calls, 0) == EMPTY;
    assert FenceOf(StateAt(EMPTY, calls, 1), t) == 1;
    assert FenceOf(StateAt(EMPTY, calls, 2), t) == 1;
  }

  /** A slug whose fence file is another slug's temporary file: granting the other one wipes out its
      counter, and the next grant hands out token 1 a second time. */
  lemma TemporaryFileResetsFence(s: Slug, t: Slug) returns (calls: seq<Call>)
    requires SafeName(t) == SafeName(s) + ".tmp" && !NamesDirectory(SafeName(s))
    ensures OverSlugs(calls, {s, t}) && !SameAnswers(calls)
    ensures |calls| == 4 && calls[0].op.TryAcquire? && calls[3].op.TryAcquire?
    ensures calls[0].op.slug == t == calls[3].op.slug
    ensures var first, last := FileOutcomeAt(EMPTY_VAULT, calls, 0), FileOutcomeAt(EMPTY_VAULT, calls, 3);
            && first.Some? && first.value.Granted? && last.Some? && last.value.Granted?
            && first.value.record.token == last.value.record.token
  {
    calls := ResettingRun(s, t);
    assert |SafeName(t)| != |SafeName(s)|;
    ResettingFiles(s, t);
    ResettingTable(s, t);
    assert FileOutcomeAt(EMPTY_VAULT, calls, 3) != Some(OutcomeAt(EMPTY, calls, 3));
  }

  lemma OverMore(calls: seq<Call>, some: set<Slug>, slugs: set<Slug>)
    requires OverSlugs(calls, some) && some <= slugs
    ensures OverSlugs(calls, slugs)
  {}

  /** The files of s, or of s and t, get in each other's way. */
  predicate Clash(s: Slug, t: Slug) {
    NamesDirectory(SafeName(s)) || (s != t && SafeName(s) == SafeName(t)) || SafeName(t) == SafeName(s) + ".tmp"
  }

  lemma ClashDisagrees(s: Slug, t: Slug) returns (calls: seq<Call>)
    requires Clash(s, t)
    ensures OverSlugs(calls, {s, t}) && !SameAnswers(calls)
  {
    if NamesDirectory(SafeName(s)) {
      calls := DirectoryNameRaises(s);
      OverMore(calls, {s}, {s, t});
    } else if SafeName(s) == SafeName(t) {
      calls := SharedNameDisagrees(s, t);
    } else {
      calls := TemporaryFileResetsFence(s, t);
    }
  }

  lemma UnseparateSlugsClash(slugs: set<Slug>)
    requires !Separate(slugs)
    ensures exists s, t :: s in slugs && t in slugs && Clash(s, t)
  {
    if s :| s in slugs && NamesDirectory(SafeName(s)) {
      assert Clash(s, s);
    } else if s, t :| s in slugs && t in slugs && s != t && SafeName(s) == SafeName(t) {
      assert Clash(s, t);
    } else {
      var s, t :| s in slugs && t in slugs && SafeName(t) == SafeName(s) + ".tmp";
      assert Clash(s, t);
    }
  }

  lemma UnseparateSlugsDisagree(slugs: set<Slug>) returns (calls: seq<Call>)
    requires !Separate(slugs)
    ensures OverSlugs(calls, slugs) && !SameAnswers(calls)
  {
    UnseparateSlugsClash(slugs);
    var s, t :| s in slugs && t in slugs && Clash(s, t);
    calls := ClashDisagrees(s, t);
    OverMore(calls, {s, t}, slugs);
  }

  ghost predicate AlwaysAgrees(slugs: set<Slug>) { forall calls :: OverSlugs(calls, slugs) ==> SameAnswers(calls) }

  /** The filesystem registry stands in for the SQLite one on a set of slugs exactly when their file
      names keep apart. */
  lemma AgreesIffSeparate(slugs: set<Slug>)
    ensures AlwaysAgrees(slugs) <==> Separate(slugs)
  {
    if Separate(slugs) {
      forall calls | OverSlugs(calls, slugs) ensures SameAnswers(calls) {
        SeparateSlugsAgree(calls, slugs);
      }
    } else {
      var _ := UnseparateSlugsDisagree(slugs);
    }
  }

  // ---- file names ----

  lemma {:induction false} SafeNameSplits(a: string, b: string)
    ensures SafeName(a + b) == SafeName(a) + SafeName(b)
  {
    if a == [] {
      assert a + b == b;
    } else {
      assert (a + b)[0] == a[0] && (a + b)[1..] == a[1..] + b;
      SafeNameSplits(a[1..], b);
    }
  }

  lemma {:induction false} SafeNameOfPlain(slug: Slug)
    ensures '/' !in SafeName(slug)
    ensures '/' !in slug ==> SafeName(slug) == slug
  {
    if slug == [] {
    } else {
      SafeNameOfPlain(slug[1..]);
    }
  }

  /** A file name is the slug with each '/' replaced by "__", and nothing else touched. */
  lemma SafeNameFlattens(a: string, b: string)
    ensures SafeName(a + "/" + b) == SafeName(a) + "__" + SafeName(b)
    ensures '/' !in a ==> SafeName(a) == a
    ensures '/' !in SafeName(a)
  {
    SafeNameOfPlain(a);
    SafeNameSplits(a + "/", b);
    SafeNameSplits(a, "/");
  }

  // ---- a rule of thumb that keeps names apart ----

  /** Undo the flattening: read "__" back as '/'. */
  function Unflatten(name: string): string {
    if name == [] then []
    else if |name| >= 2 && name[0] == '_' && name[1] == '_' then "/" + Unflatten(name[2..])
    else [name[0]] + Unflatten(name[1..])
  }

  lemma UnflattenHead(c: char, rest: string)
    requires c != '_'
    ensures Unflatten(Flat(c) + rest) == [c] + Unflatten(rest)
  {
    assert ("__" + rest)[2..] == rest && ([c] + rest)[1..] == rest;
  }

  lemma Associates(a: string, b: string, c: string)
    ensures (a + b) + c == a + (b + c)
  {}

  lemma {:induction false} FlatteningInverts(slug: Slug, rest: string)
    requires '_' !in slug
    ensures Unflatten(SafeName(slug) + rest) == slug + Unflatten(rest)
  {
    if slug == [] {
      assert SafeName(slug) + rest == rest;
    } else {
      var c, tail := slug[0], slug[1..];
      Associates(Flat(c), SafeName(tail), rest);
      UnflattenHead(c, SafeName(tail) + rest);
      FlatteningInverts(tail, rest);
      Associates([c], tail, Unflatten(rest));
      assert [c] + tail == slug;
    }
  }

  predicate EndsInTmp(s: string) { |s| >= 4 && s[|s| - 4..] == ".tmp" }

  lemma {:induction false} NothingFlattened(slug: Slug)
    requires '_' !in SafeName(slug)
    ensures slug == SafeName(slug)
  {
    if slug == [] {
      assert SafeName(slug) == [];
    } else {
      assert SafeName(slug)[0] != '_';
      NothingFlattened(slug[1..]);
    }
  }

  /** Slugs without '_' that do not end in ".tmp" never interfere, "", "." and ".." excepted. */
  lemma PlainSlugsAreSeparate(slugs: set<Slug>)
    requires forall s :: s in slugs ==> '_' !in s && !EndsInTmp(s) && !NamesDirectory(s)
    ensures Separate(slugs)
  {
    forall s | s in slugs ensures !NamesDirectory(SafeName(s)) {
      if NamesDirectory(SafeName(s)) {
        NothingFlattened(s);
      }
    }
    forall s, t | s in slugs && t in slugs
      ensures s != t ==> SafeName(s) != SafeName(t)
      ensures SafeName(t) != SafeName(s) + ".tmp"
    {
      FlatteningInverts(s, []);
      FlatteningInverts(t, []);
      assert SafeName(s) + [] == SafeName(s) && SafeName(t) + [] == SafeName(t) && s + [] == s && t + [] == t;
      FlatteningInverts(s, ".tmp");
      assert Unflatten(".tmp") == ".tmp" by {
        assert ".tmp"[1..] == "tmp" && "tmp"[1..] == "mp" && "mp"[1..] == "p" && "p"[1..] == "";
      }
      assert EndsInTmp(s + ".tmp");
    }
  }

  // ---- a lease file that does not parse ----

  predicate GarbledFor(v: Vault, slug: Slug) { LockName(slug) in v.locks && v.locks[LockName(slug)] == Garbled }

  lemma GarbledStays(v: Vault, c: Call, slug: Slug)
    requires GarbledFor(v, slug)
    ensures GarbledFor(FileStep(v, c).0, slug)
    ensures c.op.TryAcquire? && LockName(c.op.slug) == LockName(slug)
            ==> FileStep(v, c).1 == if NamesDirectory(SafeName(slug)) then None else Some(Conflict)
  {
    TmpNameIsNoLockName(SafeName(c.op.slug), SafeName(slug));
  }

  /** A garbled lease file wedges its slug: no run of registry calls ever removes it, and every
      try_acquire on that file name is refused. */
  lemma {:induction false} GarbledLeaseBlocksForever(v0: Vault, calls: seq<Call>, i: nat, slug: Slug)
    requires GarbledFor(v0, slug) && i <= |calls|
    ensures GarbledFor(VaultAt(v0, calls, i), slug)
    ensures i < |calls| && calls[i].op.TryAcquire? && LockName(calls[i].op.slug) == LockName(slug)
            ==> FileOutcomeAt(v0, calls, i) == if NamesDirectory(SafeName(slug)) then None else Some(Conflict)
  {
    if i == 0 {
      assert VaultAt(v0, calls, 0) == v0;
    } else {
      GarbledLeaseBlocksForever(v0, calls, i - 1, slug);
      GarbledStays(VaultAt(v0, calls, i - 1), calls[i - 1], slug);
    }
    if i < |calls| {
      GarbledStays(VaultAt(v0, calls, i), calls[i], slug);
    }
  }
}
