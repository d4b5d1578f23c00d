/** Per-agent memory blocks in a revisioned key-value bucket, written by read-compute-compare-and-swap
    retry loops. */
module CoreMemory {
  import opened Collections
  import opened Strings

  datatype Block = System | Persona | UserProfile | WorkingContext | PrimedCache

  datatype Caller = Agent | Worker | Other

  datatype Key = Key(agent: string, block: Block)

  const TOTAL_TOKEN_BUDGET := 12_000

  const MAX_CAS_RETRIES := 5

  function Limit(b: Block): nat {
    match b
    case System => 1_500
    case Persona => 1_000
    case UserProfile => 2_000
    case WorkingContext => 4_000
    case PrimedCache => 2_000
  }

  predicate MayWrite(caller: Caller, b: Block) {
    && (caller.Agent? ==> b.WorkingContext?)
    && (caller.Worker? ==> b.PrimedCache? || b.UserProfile?)
  }

  /** The text services the manager leans on: the tokenizer and the firewall's verdict. */
  datatype Text = Text(count: string -> nat, safe: string -> bool) {
    function Tokens(s: string): nat { count(s) }

    predicate IsSafe(s: string) { safe(s) }
  }

  // ---- text operations ----

  /** Python's s.replace(old, new, 1), or None when old does not occur. */
  function ReplaceFirst(s: string, old_: string, new_: string): Option<string> {
    if old_ <= s then Some(new_ + s[|old_|..])
    else if s == [] then None
    else
      match ReplaceFirst(s[1..], old_, new_)
      case None => None
      case Some(r) => Some([s[0]] + r)
  }

  ghost predicate OccursAt(s: string, x: string, i: nat) {
    i + |x| <= |s| && s[i..i + |x|] == x
  }

  lemma OccursInTail(s: string, x: string, i: nat)
    requires s != []
    ensures OccursAt(s, x, i + 1) <==> OccursAt(s[1..], x, i)
  {
    if i + |x| <= |s| - 1 {
      assert s[i + 1..i + 1 + |x|] == s[1..][i..i + |x|];
    }
  }

  /** It is the first occurrence that is replaced, and nothing around it moves. */
  lemma {:induction false} ReplacesFirstOccurrence(s: string, old_: string, new_: string, i: nat)
    requires OccursAt(s, old_, i) && forall j: nat :: j < i ==> !OccursAt(s, old_, j)
    ensures ReplaceFirst(s, old_, new_) == Some(s[..i] + new_ + s[i + |old_|..])
  {
    if i == 0 {
      assert s[..0] + new_ + s[|old_|..] == new_ + s[|old_|..];
    } else {
      assert !OccursAt(s, old_, 0);
      OccursInTail(s, old_, i - 1);
      forall j: nat | j < i - 1 ensures !OccursAt(s[1..], old_, j) {
        OccursInTail(s, old_, j);
      }
      ReplacesFirstOccurrence(s[1..], old_, new_, i - 1);
      assert s[..i] == [s[0]] + s[1..][..i - 1] && s[i + |old_|..] == s[1..][i - 1 + |old_|..];
      assert s[..i] + new_ + s[i + |old_|..] == [s[0]] + (s[1..][..i - 1] + new_ + s[1..][i - 1 + |old_|..]);
    }
  }

  lemma {:induction false} ReplacesIffOccurs(s: string, old_: string, new_: string)
    ensures ReplaceFirst(s, old_, new_).Some? <==> exists i: nat :: OccursAt(s, old_, i)
  {
    if old_ <= s {
      assert OccursAt(s, old_, 0);
    } else if s != [] {
      ReplacesIffOccurs(s[1..], old_, new_);
      if i: nat :| OccursAt(s[1..], old_, i) {
        OccursInTail(s, old_, i);
      }
      if i: nat :| OccursAt(s, old_, i) {
        OccursInTail(s, old_, i - 1);
      }
    }
  }

  function Appended(current: string, separator: string, added: string): string {
    Strip(if current != [] then current + separator + added else added)
  }

  // ---- the bucket ----

  datatype Entry = Entry(content: string, revision: int)

  /** A purged key is gone; revisions are numbers of the bucket's one stream, so no two writes share one. */
  datatype Store = Store(entries: map<Key, Entry>, lastRevision: int)

  function Put(s: Store, key: Key, content: string): Store {
    Store(s.entries[key := Entry(content, s.lastRevision + 1)], s.lastRevision + 1)
  }

  function Purge(s: Store, key: Key): Store {
    Store(s.entries - {key}, s.lastRevision + 1)
  }

  /** 0 when the key is absent, as the code has it. */
  function RevisionOf(s: Store, key: Key): int {
    if key in s.entries then s.entries[key].revision else 0
  }

  predicate AtRevision(s: Store, key: Key, revision: int) { key in s.entries && s.entries[key].revision == revision }

  /** Create for revision 0, update otherwise: does the server accept? */
  predicate Accepts(s: Store, key: Key, revision: int) {
    if revision == 0 then key !in s.entries else AtRevision(s, key, revision)
  }

  class Bucket {
    var entries: map<Key, Entry>
    var lastRevision: int

    function View(): Store
      reads this
    {
      Store(entries, lastRevision)
    }

    method Get(key: Key) returns (e: Option<Entry>)
      ensures e == if key in View().entries then Some(View().entries[key]) else None
    {
      e := if key in entries then Some(entries[key]) else None;
    }

    method Create(key: Key, content: string) returns (revision: Option<int>)
      modifies this
      ensures key in old(entries) ==> revision == None && View() == old(View())
      ensures key !in old(entries) ==> revision == Some(lastRevision) && View() == Put(old(View()), key, content)
    {
      if key in entries {
        return None;
      }
      lastRevision := lastRevision + 1;
      entries := entries[key := Entry(content, lastRevision)];
      return Some(lastRevision);
    }

    method Update(key: Key, content: string, expected: int) returns (revision: Option<int>)
      modifies this
      ensures !AtRevision(old(View()), key, expected) ==> revision == None && View() == old(View())
      ensures AtRevision(old(View()), key, expected) ==> revision == Some(lastRevision) && View() == Put(old(View()), key, content)
    {
      if key !in entries || entries[key].revision != expected {
        return None;
      }
      lastRevision := lastRevision + 1;
      entries := entries[key := Entry(content, lastRevision)];
      return Some(lastRevision);
    }

    /** Writes of other clients that land while ours is waiting. */
    method Absorb(others: seq<Landed>)
      modifies this
      ensures View() == LandAll(old(View()), others, |others|)
    {
      for i := 0 to |others|
        invariant View() == LandAll(old(View()), others, i)
      {
        lastRevision := lastRevision + 1;
        match others[i]
        case PutBy(key, content) => entries := entries[key := Entry(content, lastRevision)];
        case PurgeBy(key) => entries := entries - {key};
      }
    }

    /** A request of ours, before which the others' writes land. */
    method GetAfter(others: seq<Landed>, key: Key) returns (e: Option<Entry>)
      modifies this
      ensures View() == LandAll(old(View()), others, |others|)
      ensures e == if key in View().entries then Some(View().entries[key]) else None
    {
      Absorb(others);
      e := Get(key);
    }

    /** Create under revision 0, otherwise update. */
    method SwapAfter(others: seq<Landed>, key: Key, content: string, expected: int) returns (revision: Option<int>)
      modifies this
      ensures var s := LandAll(old(View()), others, |others|);
              && (!Accepts(s, key, expected) ==> revision == None && View() == s)
              && (Accepts(s, key, expected) ==> revision == Some(s.lastRevision + 1) && View() == Put(s, key, content))
    {
      Absorb(others);
      if expected == 0 {
        revision := Create(key, content);
      } else {
        revision := Update(key, content, expected);
      }
    }

    method UpdateAfter(others: seq<Landed>, key: Key, content: string, expected: int) returns (revision: Option<int>)
      modifies this
      ensures var s := LandAll(old(View()), others, |others|);
              && (!AtRevision(s, key, expected) ==> revision == None && View() == s)
              && (AtRevision(s, key, expected) ==> revision == Some(s.lastRevision + 1) && View() == Put(s, key, content))
    {
      Absorb(others);
      revision := Update(key, content, expected);
    }
  }

  /** A write by somebody else, as the bucket sees it. */
  datatype Landed = PutBy(key: Key, content: string) | PurgeBy(key: Key)

  function Land(s: Store, l: Landed): Store {
    match l
    case PutBy(key, content) => Put(s, key, content)
    case PurgeBy(key) => Purge(s, key)
  }

  function LandAll(s: Store, others: seq<Landed>, n: nat): Store
    requires n <= |others|
  {
    if n == 0 then s else Land(LandAll(s, others, n - 1), others[n - 1])
  }

  // ---- one call as a machine that acts on the bucket one request at a time ----

  datatype Call =
    | Update(key: Key, content: string, expected: int, caller: Caller)
    | Append(key: Key, added: string, separator: string)
    | Replace(key: Key, oldText: string, newText: string, caller: Caller)

  datatype Result = Written(content: string, revision: int, tokens: nat) | Denied | Invalid | Exhausted

  /** attempt counts from 1. Writing carries the content to store and the revision it was computed from. */
  datatype Client =
    | Reading(attempt: nat)
    | Writing(attempt: nat, content: string, revision: int)
    | Done(result: Result)

  /** What the call makes of a block, None standing for a missing block on either side of the arrow:
      the sequential meaning of the call, limits aside. */
  function Meaning(call: Call, before: Option<string>): Option<string> {
    match call
    case Update(_, content, _, _) => Some(content)
    case Append(_, added, separator) =>
      Some(Appended(if before.Some? then before.value else "", separator, added))
    case Replace(_, oldText, newText, _) =>
      if before.None? then None else ReplaceFirst(before.value, oldText, newText)
  }

  function ContentOf(s: Store, key: Key): Option<string> {
    if key in s.entries then Some(s.entries[key].content) else None
  }

  /** A replacement never creates. */
  predicate Accepted(s: Store, call: Call, revision: int) {
    if call.Replace? then AtRevision(s, call.key, revision)
    else Accepts(s, call.key, revision)
  }

  function Begin(text: Text, call: Call): Client {
    match call
    case Update(key, content, expected, caller) =>
      if !text.IsSafe(content) then Done(Invalid)
      else if !MayWrite(caller, key.block) then Done(Denied)
      else if text.Tokens(content) > Limit(key.block) then Done(Invalid)
      else Writing(1, content, expected)
    case Append(_, _, _) => Reading(1)
    case Replace(key, _, _, caller) => if !MayWrite(caller, key.block) then Done(Denied) else Reading(1)
  }

  /** One request. An update reads only to learn the revision to try next. */
  function Act(text: Text, call: Call, c: Client, s: Store): (Client, Store) {
    match c
    case Done(_) => (c, s)
    case Reading(attempt) =>
      if call.Update? then
        (if attempt >= MAX_CAS_RETRIES then Done(Exhausted)
         else Writing(attempt + 1, call.content, RevisionOf(s, call.key)), s)
      else
        var after := Meaning(call, ContentOf(s, call.key));
        (if after.None? || text.Tokens(after.value) > Limit(call.key.block) then Done(Invalid)
         else Writing(attempt, after.value, RevisionOf(s, call.key)), s)
    case Writing(attempt, content, revision) =>
      if Accepted(s, call, revision) then
        (Done(Written(content, s.lastRevision + 1, text.Tokens(content))), Put(s, call.key, content))
      else
        (if call.Update? then Reading(attempt)
         else if attempt >= MAX_CAS_RETRIES then Done(Exhausted) else Reading(attempt + 1), s)
  }

  /** The rest of a call, with the writes others[k], others[k + 1], ... landing before its requests. */
  function Finish(text: Text, call: Call, c: Client, s: Store, others: seq<seq<Landed>>, k: nat): (Client, Store)
    requires k <= |others|
    decreases |others| - k
  {
    if c.Done? || k == |others| then (c, s)
    else
      var (c', s') := Act(text, call, c, LandAll(s, others[k], |others[k]|));
      Finish(text, call, c', s', others, k + 1)
  }

  lemma Request(text: Text, call: Call, c: Client, s: Store, others: seq<seq<Landed>>, k: nat)
    requires k < |others| && !c.Done?
    ensures var (c', s') := Act(text, call, c, LandAll(s, others[k], |others[k]|));
            Finish(text, call, c, s, others, k) == Finish(text, call, c', s', others, k + 1)
  {}

  /** What a call has come to by request k, and what is still to come, make up the whole call. */
  ghost predicate OnTrack(text: Text, call: Call, s0: Store, others: seq<seq<Landed>>, c: Client, s: Store, k: nat) {
    k <= |others| && Finish(text, call, Begin(text, call), s0, others, 0) == Finish(text, call, c, s, others, k)
  }

  lemma Advances(text: Text, call: Call, s0: Store, others: seq<seq<Landed>>, c: Client, s: Store, k: nat)
    requires OnTrack(text, call, s0, others, c, s, k) && k < |others| && !c.Done?
    ensures var (c', s') := Act(text, call, c, LandAll(s, others[k], |others[k]|)); OnTrack(text, call, s0, others, c', s', k + 1)
  {
    Request(text, call, c, s, others, k);
  }

  /** Where an append or replacement stands when its attempt-th try begins. */
  function TryFrom(attempt: nat): Client { if attempt <= MAX_CAS_RETRIES then Reading(attempt) else Done(Exhausted) }

  /** One try of an append or replacement is two requests, or one when it ends at the first. */
  ghost predicate Tried(text: Text, call: Call, attempt: nat, s: Store, before: seq<Landed>, between: seq<Landed>, s': Store, r: Option<Result>) {
    var (c1, s1) := Act(text, call, Reading(attempt), LandAll(s, before, |before|));
    if c1.Done? then r == Some(c1.result) && s' == s1
    else
      var (c2, s2) := Act(text, call, c1, LandAll(s1, between, |between|));
      s' == s2 && c2 == if r.Some? then Done(r.value) else if attempt >= MAX_CAS_RETRIES then Done(Exhausted) else Reading(attempt + 1)
  }

  lemma TryAdvances(text: Text, call: Call, s0: Store, others: seq<seq<Landed>>, attempt: nat, s: Store, s': Store, r: Option<Result>)
    requires |others| == 2 * MAX_CAS_RETRIES && 1 <= attempt <= MAX_CAS_RETRIES
    requires OnTrack(text, call, s0, others, TryFrom(attempt), s, 2 * attempt - 2)
    requires Tried(text, call, attempt, s, others[2 * attempt - 2], others[2 * attempt - 1], s', r)
    ensures r.Some? ==> Finish(text, call, Begin(text, call), s0, others, 0) == (Done(r.value), s')
    ensures r.None? ==> OnTrack(text, call, s0, others, TryFrom(attempt + 1), s', 2 * attempt)
  {
    var k := 2 * attempt - 2;
    Advances(text, call, s0, others, Reading(attempt), s, k);
    var (c1, s1) := Act(text, call, Reading(attempt), LandAll(s, others[k], |others[k]|));
    if !c1.Done? {
      Advances(text, call, s0, others, c1, s1, k + 1);
    }
  }

  const MAX_REQUESTS := 2 * MAX_CAS_RETRIES

  /** How many requests a call has left at most. */
  function RequestsLeft(call: Call, c: Client): int {
    match c
    case Done(_) => 0
    case Reading(attempt) => if call.Update? then MAX_REQUESTS + 1 - 2 * attempt else MAX_REQUESTS + 2 - 2 * attempt
    case Writing(attempt, _, _) => if call.Update? then MAX_REQUESTS + 2 - 2 * attempt else MAX_REQUESTS + 1 - 2 * attempt
  }

  /** Retries are bounded: whatever lands in between, every request brings the call closer to its end. */
  lemma ActAdvances(text: Text, call: Call, c: Client, s: Store)
    requires !c.Done? && 0 < RequestsLeft(call, c)
    ensures 0 <= RequestsLeft(call, Act(text, call, c, s).0) < RequestsLeft(call, c)
    ensures RequestsLeft(call, Act(text, call, c, s).0) == 0 ==> Act(text, call, c, s).0.Done?
  {}

  lemma {:induction false} CallsEnd(text: Text, call: Call, c: Client, s: Store, others: seq<seq<Landed>>, k: nat)
    requires k <= |others| && 0 <= RequestsLeft(call, c) <= |others| - k
    requires RequestsLeft(call, c) == 0 ==> c.Done?
    ensures Finish(text, call, c, s, others, k).0.Done?
    decreases |others| - k
  {
    if !c.Done? {
      var s1 := LandAll(s, others[k], |others[k]|);
      ActAdvances(text, call, c, s1);
      var (c', s') := Act(text, call, c, s1);
      CallsEnd(text, call, c', s', others, k + 1);
    }
  }

  /** So ten requests end any call. */
  lemma TenRequestsEnd(text: Text, call: Call, s: Store, others: seq<seq<Landed>>)
    requires 10 <= |others|
    ensures Finish(text, call, Begin(text, call), s, others, 0).0.Done?
  {
    CallsEnd(text, call, Begin(text, call), s, others, 0);
  }

  /** Left alone, an update that is let through writes its content whatever revision it was given: a stale
      expected revision costs a retry, it does not protect what was written since. */
  lemma StaleUpdateOverwrites(text: Text, call: Call, s: Store)
    requires call.Update? && Begin(text, call).Writing?
    requires forall k :: k in s.entries ==> 1 <= s.entries[k].revision
    ensures var quiet: seq<seq<Landed>> := seq(MAX_REQUESTS, i => []);
            var (c, s') := Finish(text, call, Begin(text, call), s, quiet, 0);
            c.Done? && c.result.Written? && s' == Put(s, call.key, call.content)
  {
    var quiet: seq<seq<Landed>> := seq(MAX_REQUESTS, i => []);
    var c0 := Begin(text, call);
    Request(text, call, c0, s, quiet, 0);
    if !Accepted(s, call, call.expected) {
      Request(text, call, Reading(1), s, quiet, 1);
      Request(text, call, Writing(2, call.content, RevisionOf(s, call.key)), s, quiet, 2);
    }
  }

  // ---- bootstrap: every block of an agent that is absent is created, whatever its size ----

  function Default(block: Block, system: string, persona: string): string {
    match block
    case System => system
    case Persona => persona
    case _ => ""
  }

  const BLOCKS: seq<Block> := [System, Persona, UserProfile, WorkingContext, PrimedCache]

  lemma BlockListed(block: Block) returns (k: nat)
    ensures k < |BLOCKS| && BLOCKS[k] == block
  {
    k := match block case System => 0 case Persona => 1 case UserProfile => 2 case WorkingContext => 3 case PrimedCache => 4;
  }

  /** One block, with before landing before the read and between before the create that may follow it. A create
      fails when the block has come into being meanwhile. */
  function BootstrapOne(s: Store, key: Key, content: string, before: seq<Landed>, between: seq<Landed>): Store {
    var read := LandAll(s, before, |before|);
    if key in read.entries then read
    else
      var later := LandAll(read, between, |between|);
      if key in later.entries then later else Put(later, key, content)
  }

  /** After the first n blocks. */
  function Bootstrapped(s: Store, agent: string, system: string, persona: string, others: seq<seq<Landed>>, n: nat): Store
    requires n <= |BLOCKS| && |others| == 2 * |BLOCKS|
  {
    if n == 0 then s
    else
      BootstrapOne(Bootstrapped(s, agent, system, persona, others, n - 1), Key(agent, BLOCKS[n - 1]),
                   Default(BLOCKS[n - 1], system, persona), others[2 * n - 2], others[2 * n - 1])
  }

  ghost predicate Quiet(others: seq<seq<Landed>>) { forall k :: 0 <= k < |others| ==> others[k] == [] }

  lemma QuietOne(s: Store, key: Key, content: string, k: Key)
    ensures var t := BootstrapOne(s, key, content, [], []);
            && key in t.entries
            && (k in s.entries ==> k in t.entries && t.entries[k] == s.entries[k])
            && (k !in s.entries ==> ContentOf(t, k) == if k == key then Some(content) else None)
            && (key in s.entries ==> t == s)
  {}

  /** In t, these blocks of the agent are filled, and everything else is as in s. */
  ghost predicate Filled(s: Store, t: Store, agent: string, system: string, persona: string, blocks: seq<Block>, key: Key) {
    && (key in s.entries ==> key in t.entries && t.entries[key] == s.entries[key])
    && (key !in s.entries ==>
          ContentOf(t, key) == if key.agent == agent && key.block in blocks then Some(Default(key.block, system, persona)) else None)
  }

  lemma FilledNext(s: Store, t: Store, agent: string, system: string, persona: string, blocks: seq<Block>, block: Block, key: Key)
    requires Filled(s, t, agent, system, persona, blocks, key)
    ensures Filled(s, BootstrapOne(t, Key(agent, block), Default(block, system, persona), [], []),
                   agent, system, persona, blocks + [block], key)
  {
    QuietOne(t, Key(agent, block), Default(block, system, persona), key);
  }

  lemma {:induction false} BootstrapFills(s: Store, agent: string, system: string, persona: string, others: seq<seq<Landed>>, n: nat, key: Key)
    requires n <= |BLOCKS| && |others| == 2 * |BLOCKS| && Quiet(others)
    ensures Filled(s, Bootstrapped(s, agent, system, persona, others, n), agent, system, persona, BLOCKS[..n], key)
  {
    if n == 0 {
      assert Bootstrapped(s, agent, system, persona, others, 0) == s;
    } else {
      BootstrapFills(s, agent, system, persona, others, n - 1, key);
      assert others[2 * n - 2] == [] && others[2 * n - 1] == [];
      assert BLOCKS[..n] == BLOCKS[..n - 1] + [BLOCKS[n - 1]];
      FilledNext(s, Bootstrapped(s, agent, system, persona, others, n - 1), agent, system, persona, BLOCKS[..n - 1], BLOCKS[n - 1], key);
    }
  }

  lemma {:induction false} BootstrapRests(s: Store, agent: string, system: string, persona: string, others: seq<seq<Landed>>, n: nat)
    requires n <= |BLOCKS| && |others| == 2 * |BLOCKS| && Quiet(others)
    requires forall block: Block :: Key(agent, block) in s.entries
    ensures Bootstrapped(s, agent, system, persona, others, n) == s
  {
    if n == 0 {
      assert Bootstrapped(s, agent, system, persona, others, 0) == s;
    } else {
      BootstrapRests(s, agent, system, persona, others, n - 1);
      assert others[2 * n - 2] == [] && others[2 * n - 1] == [];
    }
  }

  /** Undisturbed, a bootstrap gives an agent the blocks it lacks, their default in them, and touches no other;
      and a second one changes nothing, whatever it is given. */
  lemma BootstrapIsIdempotent(s: Store, agent: string, system: string, persona: string, others: seq<seq<Landed>>, key: Key,
                              system': string, persona': string)
    requires |others| == 2 * |BLOCKS| && Quiet(others)
    ensures var t := Bootstrapped(s, agent, system, persona, others, |BLOCKS|);
            && (key in s.entries ==> key in t.entries && t.entries[key] == s.entries[key])
            && (key !in s.entries && key.agent != agent ==> key !in t.entries)
            && (key !in s.entries && key.agent == agent ==>
                  ContentOf(t, key) == Some(if key.block == System then system else if key.block == Persona then persona else ""))
            && Bootstrapped(t, agent, system', persona', others, |BLOCKS|) == t
  {
    var t := Bootstrapped(s, agent, system, persona, others, |BLOCKS|);
    assert BLOCKS[..|BLOCKS|] == BLOCKS;
    var k := BlockListed(key.block);
    BootstrapFills(s, agent, system, persona, others, |BLOCKS|, key);
    forall block: Block ensures Key(agent, block) in t.entries {
      BootstrapFills(s, agent, system, persona, others, |BLOCKS|, Key(agent, block));
      var k := BlockListed(block);
    }
    BootstrapRests(t, agent, system', persona', others, |BLOCKS|);
  }

  // ---- the code ----

  class CoreMemoryManager {
    const kv: Bucket
    const text: Text

    constructor (kv: Bucket, text: Text)
      ensures this.kv == kv && this.text == text
    {
      this.kv := kv;
      this.text := text;
    }

    /** The block that was found or created; None when a create lost a race, which is logged and skipped. */
    method BootstrapBlock(key: Key, content: string, before: seq<Landed>, between: seq<Landed>) returns (found: Option<string>)
      modifies kv
      ensures kv.View() == BootstrapOne(old(kv.View()), key, content, before, between)
      ensures key in kv.View().entries && (found.Some? ==> found == ContentOf(kv.View(), key))
    {
      kv.Absorb(before);
      var entry := kv.Get(key);
      if entry.Some? {
        return Some(entry.value.content);
      }
      kv.Absorb(between);
      var revision := kv.Create(key, content);
      found := if revision.Some? then Some(content) else None;
    }

    method BootstrapAgent(agent: string, system: string, persona: string, others: seq<seq<Landed>>)
      returns (blocks: map<Block, string>)
      requires |others| == 2 * |BLOCKS|
      modifies kv
      ensures kv.View() == Bootstrapped(old(kv.View()), agent, system, persona, others, |BLOCKS|)
    {
      blocks := map[];
      for n := 0 to |BLOCKS|
        invariant kv.View() == Bootstrapped(old(kv.View()), agent, system, persona, others, n)
      {
        var found := BootstrapBlock(Key(agent, BLOCKS[n]), Default(BLOCKS[n], system, persona), others[2 * n], others[2 * n + 1]);
        if found.Some? {
          blocks := blocks[BLOCKS[n] := found.value];
        }
      }
    }

    method UpdateBlock(key: Key, content: string, expected: int, caller: Caller, others: seq<seq<Landed>>)
      returns (r: Result)
      requires |others| == MAX_REQUESTS
      modifies kv
      ensures var call := Update(key, content, expected, caller);
              (Done(r), kv.View()) == Finish(text, call, Begin(text, call), old(kv.View()), others, 0)
    {
      ghost var call := Update(key, content, expected, caller);
      ghost var s0 := kv.View();
      if !text.IsSafe(content) {
        return Invalid;
      }
      if !MayWrite(caller, key.block) {
        return Denied;
      }
      var tokens := text.Tokens(content);
      if tokens > Limit(key.block) {
        return Invalid;
      }
      var revision := expected;
      ghost var c := Begin(text, call);
      for attempt := 1 to MAX_CAS_RETRIES + 1
        invariant c == if attempt <= MAX_CAS_RETRIES then Writing(attempt, content, revision) else Done(Exhausted)
        invariant OnTrack(text, call, s0, others, c, kv.View(), 2 * attempt - 2)
      {
        Advances(text, call, s0, others, c, kv.View(), 2 * attempt - 2);
        c := Act(text, call, c, LandAll(kv.View(), others[2 * attempt - 2], |others[2 * attempt - 2]|)).0;
        var newRev := kv.SwapAfter(others[2 * attempt - 2], key, content, revision);
        if newRev.Some? {
          return Written(content, newRev.value, tokens);
        }
        Advances(text, call, s0, others, c, kv.View(), 2 * attempt - 1);
        c := Act(text, call, c, LandAll(kv.View(), others[2 * attempt - 1], |others[2 * attempt - 1]|)).0;
        var latest := kv.GetAfter(others[2 * attempt - 1], key);
        revision := if latest.Some? then latest.value.revision else 0;
      }
      return Exhausted;
    }

    /** One try: read, recompute, swap. None: somebody else was faster. */
    method TryAppend(key: Key, added: string, separator: string, ghost attempt: nat, before: seq<Landed>, between: seq<Landed>)
      returns (r: Option<Result>)
      modifies kv
      ensures Tried(text, Append(key, added, separator), attempt, old(kv.View()), before, between, kv.View(), r)
    {
      var entry := kv.GetAfter(before, key);
      var current, revision := "", 0;
      if entry.Some? {
        current, revision := entry.value.content, entry.value.revision;
      }
      var content := Appended(current, separator, added);
      var tokens := text.Tokens(content);
      if tokens > Limit(key.block) {
        return Some(Invalid);
      }
      var newRev := kv.SwapAfter(between, key, content, revision);
      r := if newRev.Some? then Some(Written(content, newRev.value, tokens)) else None;
    }

    method AppendBlock(key: Key, added: string, separator: string, others: seq<seq<Landed>>) returns (r: Result)
      requires |others| == MAX_REQUESTS
      modifies kv
      ensures var call := Append(key, added, separator);
              (Done(r), kv.View()) == Finish(text, call, Begin(text, call), old(kv.View()), others, 0)
    {
      ghost var call := Append(key, added, separator);
      ghost var s0 := kv.View();
      for attempt := 1 to MAX_CAS_RETRIES + 1
        invariant OnTrack(text, call, s0, others, TryFrom(attempt), kv.View(), 2 * attempt - 2)
      {
        ghost var s := kv.View();
        var k := 2 * attempt - 2;
        var tried := TryAppend(key, added, separator, attempt, others[k], others[k + 1]);
        TryAdvances(text, call, s0, others, attempt, s, kv.View(), tried);
        if tried.Some? {
          return tried.value;
        }
      }
      return Exhausted;
    }

    method TryReplace(key: Key, oldText: string, newText: string, ghost caller: Caller, ghost attempt: nat,
                      before: seq<Landed>, between: seq<Landed>)
      returns (r: Option<Result>)
      modifies kv
      ensures Tried(text, Replace(key, oldText, newText, caller), attempt, old(kv.View()), before, between, kv.View(), r)
    {
      var entry := kv.GetAfter(before, key);
      if entry.None? {
        return Some(Invalid);
      }
      var content := ReplaceFirst(entry.value.content, oldText, newText);
      if content.None? {
        return Some(Invalid);
      }
      var tokens := text.Tokens(content.value);
      if tokens > Limit(key.block) {
        return Some(Invalid);
      }
      var newRev := kv.UpdateAfter(between, key, content.value, entry.value.revision);
      r := if newRev.Some? then Some(Written(content.value, newRev.value, tokens)) else None;
    }

    method ReplaceInBlock(key: Key, oldText: string, newText: string, caller: Caller, others: seq<seq<Landed>>)
      returns (r: Result)
      requires |others| == MAX_REQUESTS
      modifies kv
      ensures var call := Replace(key, oldText, newText, caller);
              (Done(r), kv.View()) == Finish(text, call, Begin(text, call), old(kv.View()), others, 0)
    {
      ghost var call := Replace(key, oldText, newText, caller);
      ghost var s0 := kv.View();
      if !MayWrite(caller, key.block) {
        return Denied;
      }
      for attempt := 1 to MAX_CAS_RETRIES + 1
        invariant OnTrack(text, call, s0, others, TryFrom(attempt), kv.View(), 2 * attempt - 2)
      {
        ghost var s := kv.View();
        var k := 2 * attempt - 2;
        var tried := TryReplace(key, oldText, newText, caller, attempt, others[k], others[k + 1]);
        TryAdvances(text, call, s0, others, attempt, s, kv.View(), tried);
        if tried.Some? {
          return tried.value;
        }
      }
      return Exhausted;
    }
  }
}
