/** Many clients on one bucket: what any interleaving of their requests can do. */
module CoreMemoryRuns {
  import opened Collections
  import opened Strings
  import opened CoreMemory

  type Id = nat

  datatype Running = Running(call: Call, client: Client, startedAt: nat)

  /** What landed in the bucket, in the order it landed. */
  datatype Entered =
    | Wrote(writer: Id, call: Call, content: string, revision: int)
    | Purged(key: Key, revision: int)
    | Seeded(key: Key, content: string, revision: int)

  datatype World = World(store: Store, log: seq<Entered>, clients: map<Id, Running>)

  /** A new call, one request of a call in progress, the removal of an agent's block, or a bootstrap's create,
      which fails when the block is there. */
  datatype Event = Spawn(id: Id, call: Call) | Turn(id: Id) | Remove(key: Key) | Seed(key: Key, content: string)

  function KeyOf(e: Entered): Key {
    match e
    case Wrote(_, call, _, _) => call.key
    case Purged(key, _) => key
    case Seeded(key, _, _) => key
  }

  function Next(text: Text, w: World, e: Event): World {
    match e
    case Spawn(id, call) =>
      if id in w.clients then w else w.(clients := w.clients[id := Running(call, Begin(text, call), |w.log|)])
    case Turn(id) =>
      if id !in w.clients then w
      else
        var r := w.clients[id];
        var (c, s) := Act(text, r.call, r.client, w.store);
        World(s,
              if s != w.store then w.log + [Wrote(id, r.call, s.entries[r.call.key].content, s.lastRevision)] else w.log,
              w.clients[id := r.(client := c)])
    case Remove(key) =>
      World(Purge(w.store, key), w.log + [Purged(key, w.store.lastRevision + 1)], w.clients)
    case Seed(key, content) =>
      if key in w.store.entries then w
      else World(Put(w.store, key, content), w.log + [Seeded(key, content, w.store.lastRevision + 1)], w.clients)
  }

  function WorldAt(text: Text, w0: World, events: seq<Event>, n: nat): World
    requires n <= |events|
  {
    if n == 0 then w0 else Next(text, WorldAt(text, w0, events, n - 1), events[n - 1])
  }

  /** A bootstrap's block is a seed, at the moment of its create. */
  lemma BootstrapIsSeed(text: Text, s: Store, key: Key, content: string, before: seq<Landed>, between: seq<Landed>)
    ensures var read := LandAll(s, before, |before|);
            var later := LandAll(read, between, |between|);
            BootstrapOne(s, key, content, before, between) ==
            if key in read.entries then read else Next(text, World(later, [], map[]), Seed(key, content)).store
  {}

  /** A bucket with whatever it holds, and nobody at work on it yet. */
  ghost predicate Initial(w: World) {
    && w.log == [] && w.clients == map[]
    && 0 <= w.store.lastRevision
    && forall k :: k in w.store.entries ==> 1 <= w.store.entries[k].revision <= w.store.lastRevision
  }

  // ---- linearization ----

  /** The content of a key according to the log: replay, in order, what each logged call means. */
  function Replay(initial: Option<string>, log: seq<Entered>, key: Key, n: nat): Option<string>
    requires n <= |log|
  {
    if n == 0 then initial
    else
      var before := Replay(initial, log, key, n - 1);
      match log[n - 1]
      case Wrote(_, call, _, _) => if call.key == key then Meaning(call, before) else before
      case Purged(k, _) => if k == key then None else before
      case Seeded(k, content, _) => if k == key then Some(content) else before
  }

  lemma {:induction false} ReplayPrefix(initial: Option<string>, log: seq<Entered>, more: seq<Entered>, key: Key, n: nat)
    requires n <= |log|
    ensures Replay(initial, log + more, key, n) == Replay(initial, log, key, n)
  {
    if n == 0 {
    } else {
      ReplayPrefix(initial, log, more, key, n - 1);
    }
  }

  ghost predicate KeyNumbered(s: Store, key: Key) {
    0 <= s.lastRevision && (key in s.entries ==> 1 <= s.entries[key].revision <= s.lastRevision)
  }

  /** A client about to write computed its content from the state its revision stands for: if the key is
      still at that revision, the content is what the call makes of the current one. */
  ghost predicate Computed(s: Store, r: Running) {
    r.client.Writing? ==>
      && (r.call.Update? ==> r.client.content == r.call.content)
      && (!r.call.Update? ==> r.client.revision <= s.lastRevision)
      && (!r.call.Update? && r.client.revision == 0 ==> Some(r.client.content) == Meaning(r.call, None))
      && (!r.call.Update? && r.client.revision == RevisionOf(s, r.call.key) ==>
            Some(r.client.content) == Meaning(r.call, ContentOf(s, r.call.key)))
  }

  lemma ActComputes(text: Text, r: Running, s: Store)
    requires Computed(s, r) && KeyNumbered(s, r.call.key)
    requires r.client.Writing? && r.call.Replace? ==> 1 <= r.client.revision
    ensures var (c, s') := Act(text, r.call, r.client, s);
            && Computed(s', r.(client := c)) && KeyNumbered(s', r.call.key)
            && (c.Writing? && r.call.Replace? ==> 1 <= c.revision)
            && (s' != s ==>
                  && s' == Put(s, r.call.key, r.client.content)
                  && Some(r.client.content) == Meaning(r.call, ContentOf(s, r.call.key)))
  {}

  /** A revision is never used again, so what others do cannot make a computed content look current. */
  lemma OthersKeepComputed(s: Store, r: Running, key: Key, content: string)
    requires Computed(s, r) && KeyNumbered(s, r.call.key)
    ensures Computed(Put(s, key, content), r) && KeyNumbered(Put(s, key, content), r.call.key)
    ensures Computed(Purge(s, key), r) && KeyNumbered(Purge(s, key), r.call.key)
  {}

  /** What is always true of a client and a key. */
  ghost predicate Sane(w: World, id: Id, key: Key) {
    && KeyNumbered(w.store, key)
    && (id in w.clients ==>
          var r := w.clients[id];
          && KeyNumbered(w.store, r.call.key) && Computed(w.store, r)
          && (r.client.Writing? && r.call.Replace? ==> 1 <= r.client.revision))
  }

  lemma OthersKeepSane(w: World, id: Id, key: Key, changed: Key, content: string)
    requires Sane(w, id, key)
    ensures Sane(w.(store := Put(w.store, changed, content)), id, key)
    ensures Sane(w.(store := Purge(w.store, changed)), id, key)
  {
    if id in w.clients {
      OthersKeepComputed(w.store, w.clients[id], changed, content);
    }
  }

  lemma TurnKeepsSane(text: Text, w: World, turn: Id, id: Id, key: Key)
    requires turn in w.clients && Sane(w, id, key) && Sane(w, turn, w.clients[turn].call.key)
    ensures Sane(Next(text, w, Turn(turn)), id, key)
  {
    var r := w.clients[turn];
    ActComputes(text, r, w.store);
    if r.client.Writing? {
      OthersKeepSane(w, id, key, r.call.key, r.client.content);
    }
  }

  lemma {:induction false} ClientsComputed(text: Text, w0: World, events: seq<Event>, n: nat, id: Id, key: Key)
    requires Initial(w0) && n <= |events|
    ensures Sane(WorldAt(text, w0, events, n), id, key)
  {
    if n == 0 {
      assert WorldAt(text, w0, events, 0) == w0;
    } else {
      var w, e := WorldAt(text, w0, events, n - 1), events[n - 1];
      ClientsComputed(text, w0, events, n - 1, id, key);
      match e
      case Spawn(x, call) => ClientsComputed(text, w0, events, n - 1, id, call.key);
      case Turn(x) =>
        if x in w.clients {
          ClientsComputed(text, w0, events, n - 1, x, w.clients[x].call.key);
          TurnKeepsSane(text, w, x, id, key);
        }
      case Remove(k) => OthersKeepSane(w, id, key, k, "");
      case Seed(k, content) => OthersKeepSane(w, id, key, k, content);
    }
  }

  ghost predicate IsReplay(w: World, initial: Option<string>, key: Key) {
    ContentOf(w.store, key) == Replay(initial, w.log, key, |w.log|)
  }

  lemma EventKeepsReplay(text: Text, w: World, e: Event, initial: Option<string>, key: Key)
    requires IsReplay(w, initial, key) && (e.Turn? && e.id in w.clients ==> Sane(w, e.id, key))
    ensures IsReplay(Next(text, w, e), initial, key)
  {
    var w' := Next(text, w, e);
    if e.Turn? && e.id in w.clients {
      ActComputes(text, w.clients[e.id], w.store);
    }
    if w'.log != w.log {
      ReplayPrefix(initial, w.log, [w'.log[|w.log|]], key, |w.log|);
      assert w'.log == w.log + [w'.log[|w.log|]];
    }
  }

  /** Linearization. Whatever the interleaving, each block holds what replaying the successful calls in
      revision order yields: no append or replacement is lost between its read and its write. */
  lemma {:induction false} BlocksAreReplays(text: Text, w0: World, events: seq<Event>, n: nat, key: Key)
    requires Initial(w0) && n <= |events|
    ensures var w := WorldAt(text, w0, events, n);
            ContentOf(w.store, key) == Replay(ContentOf(w0.store, key), w.log, key, |w.log|)
  {
    if n == 0 {
      assert WorldAt(text, w0, events, 0) == w0;
    } else {
      var e := events[n - 1];
      BlocksAreReplays(text, w0, events, n - 1, key);
      if e.Turn? {
        ClientsComputed(text, w0, events, n - 1, e.id, key);
      }
      EventKeepsReplay(text, WorldAt(text, w0, events, n - 1), e, ContentOf(w0.store, key), key);
    }
  }

  /** Log order is revision order. */
  lemma {:induction false} LogInRevisionOrder(text: Text, w0: World, events: seq<Event>, n: nat)
    requires Initial(w0) && n <= |events|
    ensures var w := WorldAt(text, w0, events, n);
            && w.store.lastRevision == w0.store.lastRevision + |w.log|
            && forall i :: 0 <= i < |w.log| ==> w.log[i].revision == w0.store.lastRevision + i + 1
  {
    if n == 0 {
    } else {
      LogInRevisionOrder(text, w0, events, n - 1);
      var w, e := WorldAt(text, w0, events, n - 1), events[n - 1];
      if e.Turn? && e.id in w.clients {
        ClientsComputed(text, w0, events, n - 1, e.id, w.clients[e.id].call.key);
        ActComputes(text, w.clients[e.id], w.store);
      }
    }
  }

  // ---- who wrote what ----

  function WritesBy(log: seq<Entered>, id: Id, n: nat): nat
    requires n <= |log|
  {
    if n == 0 then 0 else WritesBy(log, id, n - 1) + if log[n - 1].Wrote? && log[n - 1].writer == id then 1 else 0
  }

  lemma {:induction false} WritesByPrefix(log: seq<Entered>, more: seq<Entered>, id: Id, n: nat)
    requires n <= |log|
    ensures WritesBy(log + more, id, n) == WritesBy(log, id, n)
  {
    if n == 0 {
    } else {
      WritesByPrefix(log, more, id, n - 1);
    }
  }

  predicate HasWritten(w: World, id: Id) { id in w.clients && w.clients[id].client.Done? && w.clients[id].client.result.Written? }

  lemma EventKeepsWrites(text: Text, w: World, e: Event, id: Id)
    requires WritesBy(w.log, id, |w.log|) == if HasWritten(w, id) then 1 else 0
    requires e.Turn? && e.id in w.clients ==> Sane(w, e.id, w.clients[e.id].call.key)
    ensures var w' := Next(text, w, e); WritesBy(w'.log, id, |w'.log|) == if HasWritten(w', id) then 1 else 0
  {
    var w' := Next(text, w, e);
    if e.Turn? && e.id in w.clients {
      ActComputes(text, w.clients[e.id], w.store);
    }
    if w'.log != w.log {
      WritesByPrefix(w.log, [w'.log[|w.log|]], id, |w.log|);
      assert w'.log == w.log + [w'.log[|w.log|]];
    }
  }

  /** A call that returned an entry wrote exactly once; a call that raised, or is still at it, wrote nothing. */
  lemma {:induction false} WroteIffWritten(text: Text, w0: World, events: seq<Event>, n: nat, id: Id)
    requires Initial(w0) && n <= |events|
    ensures var w := WorldAt(text, w0, events, n); WritesBy(w.log, id, |w.log|) == if HasWritten(w, id) then 1 else 0
  {
    if n == 0 {
      assert WorldAt(text, w0, events, 0) == w0;
    } else {
      var w, e := WorldAt(text, w0, events, n - 1), events[n - 1];
      WroteIffWritten(text, w0, events, n - 1, id);
      if e.Turn? && e.id in w.clients {
        ClientsComputed(text, w0, events, n - 1, e.id, w.clients[e.id].call.key);
      }
      EventKeepsWrites(text, w, e, id);
    }
  }

  // ---- what exhausted retries prove ----

  /** Entries of the log from i on that concern the key. */
  function Landings(log: seq<Entered>, key: Key, i: nat): nat
    requires i <= |log|
    decreases |log| - i
  {
    if i == |log| then 0 else (if KeyOf(log[i]) == key then 1 else 0) + Landings(log, key, i + 1)
  }

  lemma {:induction false} LandingsAppend(log: seq<Entered>, e: Entered, key: Key, i: nat)
    requires i <= |log|
    ensures Landings(log + [e], key, i) == Landings(log, key, i) + if KeyOf(e) == key then 1 else 0
    decreases |log| - i
  {
    if i < |log| {
      LandingsAppend(log, e, key, i + 1);
    } else {
      assert Landings(log + [e], key, i + 1) == 0;
    }
  }

  /** How often a call has been beaten so far. An update's first conflict may be its own stale argument. */
  function Beaten(r: Running): int {
    match r.client
    case Reading(attempt) => attempt - 1
    case Writing(attempt, _, _) => if r.call.Update? then attempt - 2 else attempt - 1
    case Done(result) => if !result.Exhausted? then 0 else if r.call.Update? then MAX_CAS_RETRIES - 1 else MAX_CAS_RETRIES
  }

  /** The key moved under this client since it read it. */
  ghost predicate Outrun(s: Store, r: Running) {
    r.client.Writing? && r.client.revision != RevisionOf(s, r.call.key) && (r.call.Update? ==> 1 < r.client.attempt)
  }

  ghost predicate Accounted(w: World, r: Running) {
    && r.startedAt <= |w.log|
    && (r.client.Reading? || r.client.Writing? ==> 1 <= r.client.attempt <= MAX_CAS_RETRIES)
    && Beaten(r) + (if Outrun(w.store, r) then 1 else 0) <= Landings(w.log, r.call.key, r.startedAt)
  }

  lemma OwnTurnAccounted(text: Text, w: World, r: Running)
    requires Accounted(w, r) && KeyNumbered(w.store, r.call.key)
    requires r.client.Writing? && r.call.Replace? ==> 1 <= r.client.revision
    ensures var (c, s) := Act(text, r.call, r.client, w.store);
            s == w.store ==> Accounted(w, r.(client := c))
  {}

  /** What another client, a removal or a bootstrap does. */
  lemma OthersAccounted(w: World, r: Running, e: Entered, s: Store)
    requires Accounted(w, r)
    requires s == Purge(w.store, KeyOf(e)) || exists content :: s == Put(w.store, KeyOf(e), content)
    ensures Accounted(w.(store := s, log := w.log + [e]), r)
  {
    LandingsAppend(w.log, e, r.call.key, r.startedAt);
  }

  lemma EventAccounted(text: Text, w: World, e: Event, id: Id)
    requires id in w.clients && Accounted(w, w.clients[id]) && Sane(w, id, w.clients[id].call.key)
    requires e.Turn? && e.id in w.clients ==> Sane(w, e.id, w.clients[e.id].call.key)
    ensures Accounted(Next(text, w, e), Next(text, w, e).clients[id])
  {
    var r, w' := w.clients[id], Next(text, w, e);
    match e
    case Spawn(_, _) =>
    case Turn(x) =>
      if x in w.clients {
        ActComputes(text, w.clients[x], w.store);
        if w'.store == w.store {
          OwnTurnAccounted(text, w, r);
        } else {
          OthersAccounted(w, r, w'.log[|w.log|], w'.store);
        }
      }
    case Remove(key) => OthersAccounted(w, r, w'.log[|w.log|], w'.store);
    case Seed(key, content) =>
      if key !in w.store.entries {
        OthersAccounted(w, r, w'.log[|w.log|], w'.store);
      }
  }

  lemma {:induction false} RetriesAccounted(text: Text, w0: World, events: seq<Event>, n: nat, id: Id)
    requires Initial(w0) && n <= |events| && id in WorldAt(text, w0, events, n).clients
    ensures Accounted(WorldAt(text, w0, events, n), WorldAt(text, w0, events, n).clients[id])
  {
    assert n != 0;
    var w, e := WorldAt(text, w0, events, n - 1), events[n - 1];
    if id in w.clients {
      RetriesAccounted(text, w0, events, n - 1, id);
      ClientsComputed(text, w0, events, n - 1, id, w.clients[id].call.key);
      if e.Turn? && e.id in w.clients {
        ClientsComputed(text, w0, events, n - 1, e.id, w.clients[e.id].call.key);
      }
      EventAccounted(text, w, e, id);
    }
  }

  /** An append or replacement gives up only after at least five other writes to its block landed while it
      ran; an update, whose first revision is its caller's, after at least four. */
  lemma ExhaustionMeansContention(text: Text, w0: World, events: seq<Event>, n: nat, id: Id)
    requires Initial(w0) && n <= |events| && id in WorldAt(text, w0, events, n).clients
    requires WorldAt(text, w0, events, n).clients[id].client == Done(Exhausted)
    ensures var w := WorldAt(text, w0, events, n);
            var r := w.clients[id];
            && WritesBy(w.log, id, |w.log|) == 0
            && r.startedAt <= |w.log|
            && Landings(w.log, r.call.key, r.startedAt) >= if r.call.Update? then 4 else 5
  {
    RetriesAccounted(text, w0, events, n, id);
    WroteIffWritten(text, w0, events, n, id);
  }

  // ---- limits, budget, permissions ----

  ghost predicate WithinLimit(text: Text, s: Store, key: Key) {
    key in s.entries ==> text.Tokens(s.entries[key].content) <= Limit(key.block)
  }

  ghost predicate Sized(text: Text, r: Running) {
    && (r.client.Writing? ==> text.Tokens(r.client.content) <= Limit(r.call.key.block))
    && (r.call.Update? && !r.client.Done? ==> text.Tokens(r.call.content) <= Limit(r.call.key.block))
  }

  lemma {:induction false} ClientsSized(text: Text, w0: World, events: seq<Event>, n: nat, id: Id)
    requires Initial(w0) && n <= |events| && id in WorldAt(text, w0, events, n).clients
    ensures Sized(text, WorldAt(text, w0, events, n).clients[id])
  {
    assert n != 0;
    if id in WorldAt(text, w0, events, n - 1).clients {
      ClientsSized(text, w0, events, n - 1, id);
      ClientsComputed(text, w0, events, n - 1, id, WorldAt(text, w0, events, n - 1).clients[id].call.key);
    }
  }

  lemma EventKeepsLimit(text: Text, w0: World, events: seq<Event>, n: nat, key: Key)
    requires Initial(w0) && n < |events| && WithinLimit(text, WorldAt(text, w0, events, n).store, key)
    requires var w := WorldAt(text, w0, events, n);
             events[n].Seed? && events[n].key == key && key !in w.store.entries ==> text.Tokens(events[n].content) <= Limit(key.block)
    ensures WithinLimit(text, WorldAt(text, w0, events, n + 1).store, key)
  {
    var w, e := WorldAt(text, w0, events, n), events[n];
    if e.Turn? && e.id in w.clients {
      ClientsSized(text, w0, events, n, e.id);
      ClientsComputed(text, w0, events, n, e.id, w.clients[e.id].call.key);
      ActComputes(text, w.clients[e.id], w.store);
    }
  }

  /** A bootstrap creates the block, larger than its limit. */
  ghost predicate Oversized(text: Text, w0: World, events: seq<Event>, i: nat, key: Key) {
    && i < |events| && events[i].Seed? && events[i].key == key && key !in WorldAt(text, w0, events, i).store.entries
    && text.Tokens(events[i].content) > Limit(key.block)
  }

  lemma {:induction false} LimitsHold(text: Text, w0: World, events: seq<Event>, n: nat, key: Key)
    requires Initial(w0) && n <= |events| && WithinLimit(text, w0.store, key)
    requires forall i: nat :: !Oversized(text, w0, events, i, key)
    ensures WithinLimit(text, WorldAt(text, w0, events, n).store, key)
  {
    if n == 0 {
      assert WorldAt(text, w0, events, 0) == w0;
    } else {
      LimitsHold(text, w0, events, n - 1, key);
      assert !Oversized(text, w0, events, n - 1, key);
      EventKeepsLimit(text, w0, events, n - 1, key);
    }
  }

  /** Whatever the calls, a block that is within its limit is so all along a run if and only if no bootstrap,
      which checks no limit, creates it larger. */
  lemma LimitsHoldIff(text: Text, w0: World, events: seq<Event>, key: Key)
    requires Initial(w0) && WithinLimit(text, w0.store, key)
    ensures (forall n: nat :: n <= |events| ==> WithinLimit(text, WorldAt(text, w0, events, n).store, key))
       <==> (forall i: nat :: !Oversized(text, w0, events, i, key))
  {
    if i: nat :| Oversized(text, w0, events, i, key) {
      assert !WithinLimit(text, WorldAt(text, w0, events, i + 1).store, key);
    } else {
      forall n: nat | n <= |events| ensures WithinLimit(text, WorldAt(text, w0, events, n).store, key) {
        LimitsHold(text, w0, events, n, key);
      }
    }
  }

  /** Tokens of a block as a snapshot reports it: a missing block counts nothing. */
  function TokensOf(text: Text, s: Store, key: Key): nat {
    if key in s.entries then text.Tokens(s.entries[key].content) else 0
  }

  function TokensAt(text: Text, w0: World, events: seq<Event>, n: nat, agent: string, block: Block): nat
    requires n <= |events|
  {
    TokensOf(text, WorldAt(text, w0, events, n).store, Key(agent, block))
  }

  /** A snapshot reads the five blocks one after another while others write; even so its total stays
      within the budget that the code never checks. */
  lemma SnapshotWithinBudget(text: Text, w0: World, events: seq<Event>, agent: string, a: nat, b: nat, c: nat, d: nat, e: nat)
    requires Initial(w0) && a <= b <= c <= d <= e <= |events|
    requires forall block: Block :: WithinLimit(text, w0.store, Key(agent, block))
    requires forall block: Block, i: nat :: !Oversized(text, w0, events, i, Key(agent, block))
    ensures TokensAt(text, w0, events, a, agent, System) + TokensAt(text, w0, events, b, agent, Persona)
          + TokensAt(text, w0, events, c, agent, UserProfile) + TokensAt(text, w0, events, d, agent, WorkingContext)
          + TokensAt(text, w0, events, e, agent, PrimedCache) <= 10_500 < TOTAL_TOKEN_BUDGET
  {
    BlockWithinLimit(text, w0, events, a, agent, System);
    BlockWithinLimit(text, w0, events, b, agent, Persona);
    BlockWithinLimit(text, w0, events, c, agent, UserProfile);
    BlockWithinLimit(text, w0, events, d, agent, WorkingContext);
    BlockWithinLimit(text, w0, events, e, agent, PrimedCache);
  }

  lemma BlockWithinLimit(text: Text, w0: World, events: seq<Event>, n: nat, agent: string, block: Block)
    requires Initial(w0) && n <= |events| && WithinLimit(text, w0.store, Key(agent, block))
    requires forall i: nat :: !Oversized(text, w0, events, i, Key(agent, block))
    ensures TokensAt(text, w0, events, n, agent, block) <= Limit(block)
  {
    LimitsHold(text, w0, events, n, Key(agent, block));
  }

  /** The block is never removed, and not bootstrapped unless it is there already; and every call on it, whatever
      else goes on, is an update or replacement by an agent or a worker. */
  ghost predicate Ruled(w0: World, events: seq<Event>, key: Key) {
    forall i :: 0 <= i < |events| ==>
      && events[i] != Remove(key)
      && (events[i].Seed? && events[i].key == key ==> key in w0.store.entries)
      && (events[i].Spawn? && events[i].call.key == key ==> !events[i].call.Append? && !events[i].call.caller.Other?)
  }

  lemma {:induction false} RuledCallers(text: Text, w0: World, events: seq<Event>, n: nat, id: Id, key: Key)
    requires Initial(w0) && n <= |events| && Ruled(w0, events, key) && id in WorldAt(text, w0, events, n).clients
    requires key.block.System? || key.block.Persona?
    ensures var r := WorldAt(text, w0, events, n).clients[id];
            r.call.key == key ==> r.client.Done?
  {
    assert n != 0;
    if id in WorldAt(text, w0, events, n - 1).clients {
      RuledCallers(text, w0, events, n - 1, id, key);
    }
  }

  /** An agent's system prompt and persona never change as long as nobody appends to that very block, removes it,
      bootstraps it while it is missing, or writes it as neither agent nor worker. */
  lemma {:induction false} SystemAndPersonaStand(text: Text, w0: World, events: seq<Event>, n: nat, key: Key)
    requires Initial(w0) && n <= |events| && Ruled(w0, events, key) && (key.block.System? || key.block.Persona?)
    ensures ContentOf(WorldAt(text, w0, events, n).store, key) == ContentOf(w0.store, key)
  {
    if n == 0 {
      assert WorldAt(text, w0, events, 0) == w0;
    } else {
      SystemAndPersonaStand(text, w0, events, n - 1, key);
      var w, e := WorldAt(text, w0, events, n - 1), events[n - 1];
      if e.Turn? && e.id in w.clients {
        RuledCallers(text, w0, events, n - 1, e.id, key);
      }
    }
  }

  /** With an append they do: it asks for no permission, and writes any block its result fits into. */
  lemma AppendWritesAnyBlock(text: Text, w0: World, key: Key, added: string)
    requires Initial(w0)
    requires text.Tokens(Appended(if key in w0.store.entries then w0.store.entries[key].content else "", "\n", added))
             <= Limit(key.block)
    ensures var w := WorldAt(text, w0, [Spawn(0, Append(key, added, "\n")), Turn(0), Turn(0)], 3);
            ContentOf(w.store, key) == Meaning(Append(key, added, "\n"), ContentOf(w0.store, key))
  {
    var call := Append(key, added, "\n");
    var events := [Spawn(0, call), Turn(0), Turn(0)];
    var w1 := WorldAt(text, w0, events, 1);
    assert WorldAt(text, w0, events, 0) == w0 && events[0] == Spawn(0, call);
    assert 0 !in w0.clients && w1.store == w0.store && w1.clients[0] == Running(call, Reading(1), 0);
    var content := Appended(if key in w0.store.entries then w0.store.entries[key].content else "", "\n", added);
    var w2 := WorldAt(text, w0, events, 2);
    assert w2.clients[0].client == Writing(1, content, RevisionOf(w0.store, key)) && w2.store == w0.store;
    assert Accepted(w0.store, call, RevisionOf(w0.store, key));
    assert WorldAt(text, w0, events, 3).store == Put(w0.store, key, content);
  }
}
