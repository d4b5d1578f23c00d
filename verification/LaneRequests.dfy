/** The acquire of a lane lock, request by request: look at the lane entry, delete it if it is stale, read the
    fence, create the entry, put the fence. Between two requests anything can happen. */
module LaneRequests {
  import opened Collections
  import L = LaneLocks

  type Id = nat

  datatype Phase = Looking | Reclaiming | Reading | Creating(token: int) | Putting(token: int) | Holding(token: int) | Refused

  datatype Attempt = Attempt(lane: L.Lane, gateway: string, task: string, now: int, phase: Phase)

  /** The next request of an attempt, and where it leaves the attempt. */
  function Request(s: L.Store, a: Attempt): (L.Store, Phase) {
    match a.phase
    case Looking =>
      (s, if a.lane !in s.lanes then Reading
          else if s.lanes[a.lane].gateway == a.gateway && s.lanes[a.lane].task == a.task then Refused
          else if L.Stale(s.lanes[a.lane], a.now) then Reclaiming
          else Refused)
    case Reclaiming => (s.(lanes := s.lanes - {a.lane}), Reading)
    case Reading => (s, Creating(L.NextToken(s, a.lane)))
    case Creating(token) =>
      if a.lane in s.lanes then (s, Refused)
      else (s.(lanes := s.lanes[a.lane := L.Holder(a.gateway, a.task, token, Some(a.now))]), Putting(token))
    case Putting(token) => (s.(fence := s.fence[a.lane := token]), Holding(token))
    case Holding(_) => (s, a.phase)
    case Refused => (s, Refused)
  }

  /** n requests of one attempt with nothing in between. */
  function Alone(s: L.Store, a: Attempt, n: nat): (L.Store, Attempt)
    decreases n
  {
    if n == 0 then (s, a)
    else
      var (s', phase) := Request(s, a);
      Alone(s', a.(phase := phase), n - 1)
  }

  /** Undisturbed, the requests amount to the acquire step. */
  lemma AloneIsAcquireStep(s: L.Store, lane: L.Lane, gateway: string, task: string, now: int)
    ensures var (s', a) := Alone(s, Attempt(lane, gateway, task, now, Looking), 5);
            var (t, g) := L.AcquireStep(s, gateway, task, lane, now);
            && s' == t
            && (g.Granted? ==> a.phase == Holding(g.lock.token))
            && (!g.Granted? ==> a.phase == Refused)
  {
    var a := Attempt(lane, gateway, task, now, Looking);
    var (s1, p1) := Request(s, a);
    if p1 == Refused {
      AloneRefused(s, a.(phase := Refused), 4);
    } else {
      var bare := s.(lanes := s.lanes - {lane});
      assert lane !in s.lanes ==> bare == s;
      AloneFromReading(bare, a.(phase := Reading), if p1.Reclaiming? then 3 else 4);
      if p1.Reclaiming? {
        assert Alone(s, a, 5) == Alone(s, a.(phase := Reclaiming), 4) == Alone(bare, a.(phase := Reading), 3);
      }
      var token := L.NextToken(s, lane);
      assert bare.lanes[lane := L.Holder(gateway, task, token, Some(now))] == s.lanes[lane := L.Holder(gateway, task, token, Some(now))];
    }
  }

  lemma {:induction false} AloneRefused(s: L.Store, a: Attempt, n: nat)
    requires a.phase.Refused? || a.phase.Holding?
    ensures Alone(s, a, n) == (s, a)
  {
    if n == 0 {
      assert Alone(s, a, 0) == (s, a);
    } else {
      assert a.(phase := a.phase) == a;
      AloneRefused(s, a, n - 1);
    }
  }

  lemma AloneFromReading(s: L.Store, a: Attempt, n: nat)
    requires a.phase.Reading? && a.lane !in s.lanes && n >= 3
    ensures var token := L.NextToken(s, a.lane);
            Alone(s, a, n) == (L.Store(s.lanes[a.lane := L.Holder(a.gateway, a.task, token, Some(a.now))], s.fence[a.lane := token]),
                               a.(phase := Holding(token)))
  {
    var token := L.NextToken(s, a.lane);
    var created := s.(lanes := s.lanes[a.lane := L.Holder(a.gateway, a.task, token, Some(a.now))]);
    var put := created.(fence := s.fence[a.lane := token]);
    assert Alone(s, a, n) == Alone(s, a.(phase := Creating(token)), n - 1);
    assert Alone(s, a.(phase := Creating(token)), n - 1) == Alone(created, a.(phase := Putting(token)), n - 2);
    assert Alone(created, a.(phase := Putting(token)), n - 2) == Alone(put, a.(phase := Holding(token)), n - 3);
    AloneRefused(put, a.(phase := Holding(token)), n - 3);
  }

  // ---- runs ----

  /** A fence read, with the token drawn from it, or a fence put. */
  datatype Mark = FenceRead(id: Id, lane: L.Lane, token: int) | FencePut(id: Id, lane: L.Lane, token: int)

  datatype World = World(store: L.Store, attempts: map<Id, Attempt>, log: seq<Mark>)

  /** A new attempt, one request of an attempt, or whatever others do to the lane entries: expiry, sweeps,
      renewals, releases. Only an acquire touches a fence. */
  datatype Event = Start(id: Id, lane: L.Lane, gateway: string, task: string, now: int) | Turn(id: Id) | Disturb(lanes: map<L.Lane, L.Holder>)

  function Noted(log: seq<Mark>, id: Id, a: Attempt, s: L.Store): seq<Mark> {
    match a.phase
    case Reading => log + [FenceRead(id, a.lane, L.NextToken(s, a.lane))]
    case Putting(token) => log + [FencePut(id, a.lane, token)]
    case _ => log
  }

  function Next(w: World, e: Event): World {
    match e
    case Start(id, lane, gateway, task, now) =>
      if id in w.attempts then w else w.(attempts := w.attempts[id := Attempt(lane, gateway, task, now, Looking)])
    case Turn(id) =>
      if id !in w.attempts then w
      else
        var a := w.attempts[id];
        var (s, phase) := Request(w.store, a);
        World(s, w.attempts[id := a.(phase := phase)], Noted(w.log, id, a, w.store))
    case Disturb(lanes) => w.(store := w.store.(lanes := lanes))
  }

  function WorldAt(s0: L.Store, events: seq<Event>, n: nat): World
    requires n <= |events|
  {
    if n == 0 then World(s0, map[], []) else Next(WorldAt(s0, events, n - 1), events[n - 1])
  }

  // ---- what the log says of the world ----

  /** The lane's fence after n marks: the last put, or what was there at the start. */
  function FenceAfter(s0: L.Store, log: seq<Mark>, n: nat, lane: L.Lane): int
    requires n <= |log|
  {
    if n == 0 then L.FenceOf(s0, lane)
    else if log[n - 1].FencePut? && log[n - 1].lane == lane then log[n - 1].token
    else FenceAfter(s0, log, n - 1, lane)
  }

  ghost predicate ReadIn(log: seq<Mark>, id: Id, lane: L.Lane, token: int) { FenceRead(id, lane, token) in log }

  ghost predicate PutIn(log: seq<Mark>, id: Id, lane: L.Lane, token: int) { FencePut(id, lane, token) in log }

  /** An attempt's marks fit its phase. */
  ghost predicate Marked(log: seq<Mark>, id: Id, attempts: map<Id, Attempt>) {
    forall m :: m in log && m.id == id ==>
      && id in attempts && m.lane == attempts[id].lane
      && match attempts[id].phase
         case Looking => false
         case Reclaiming => false
         case Reading => false
         case Creating(token) => m.FenceRead? && m.token == token
         case Putting(token) => m.FenceRead? && m.token == token
         case Holding(token) => m.token == token
         case Refused => m.FenceRead?
  }

  ghost predicate Backed(log: seq<Mark>, id: Id, attempts: map<Id, Attempt>) {
    id in attempts ==>
      match attempts[id].phase
      case Creating(token) => ReadIn(log, id, attempts[id].lane, token)
      case Putting(token) => ReadIn(log, id, attempts[id].lane, token)
      case Holding(token) => ReadIn(log, id, attempts[id].lane, token) && PutIn(log, id, attempts[id].lane, token)
      case _ => true
  }

  /** A read draws one more than the fence. */
  ghost predicate ReadsDraw(s0: L.Store, log: seq<Mark>) {
    forall i {:trigger FenceAfter(s0, log, i, log[i].lane)} :: 0 <= i < |log| && log[i].FenceRead? ==>
      log[i].token == FenceAfter(s0, log, i, log[i].lane) + 1
  }

  /** A put follows a read that drew its token. */
  ghost predicate PutsDrawn(log: seq<Mark>) {
    forall j {:trigger ReadIn(log[..j], log[j].id, log[j].lane, log[j].token)} :: 0 <= j < |log| && log[j].FencePut? ==>
      ReadIn(log[..j], log[j].id, log[j].lane, log[j].token)
  }

  /** Of two marks of one attempt the first is a read and the second a put. */
  ghost predicate InTurn(log: seq<Mark>) {
    forall i, j {:trigger log[i], log[j]} :: 0 <= i < j < |log| && log[i].id == log[j].id ==>
      log[i].FenceRead? && log[j].FencePut?
  }

  /** A log in which every attempt reads once and then puts once at most, what it drew from its read. */
  ghost predicate Orderly(s0: L.Store, log: seq<Mark>) { ReadsDraw(s0, log) && PutsDrawn(log) && InTurn(log) }

  lemma {:induction false} FencePrefix(s0: L.Store, log: seq<Mark>, more: seq<Mark>, n: nat, lane: L.Lane)
    requires n <= |log|
    ensures FenceAfter(s0, log + more, n, lane) == FenceAfter(s0, log, n, lane)
  {
    if n == 0 {
      assert FenceAfter(s0, log + more, 0, lane) == FenceAfter(s0, log, 0, lane);
    } else {
      FencePrefix(s0, log, more, n - 1, lane);
    }
  }

  lemma ReadsDrawNext(s0: L.Store, log: seq<Mark>, m: Mark)
    requires ReadsDraw(s0, log) && (m.FenceRead? ==> m.token == FenceAfter(s0, log, |log|, m.lane) + 1)
    ensures ReadsDraw(s0, log + [m])
  {
    forall i | 0 <= i <= |log| && (log + [m])[i].FenceRead?
      ensures (log + [m])[i].token == FenceAfter(s0, log + [m], i, (log + [m])[i].lane) + 1
    {
      FencePrefix(s0, log, [m], i, (log + [m])[i].lane);
      assert i < |log| ==> (log + [m])[i] == log[i];
    }
  }

  lemma PutsDrawnNext(log: seq<Mark>, m: Mark)
    requires PutsDrawn(log) && (m.FencePut? ==> ReadIn(log, m.id, m.lane, m.token))
    ensures PutsDrawn(log + [m])
  {
    forall j | 0 <= j <= |log| && (log + [m])[j].FencePut?
      ensures ReadIn((log + [m])[..j], (log + [m])[j].id, (log + [m])[j].lane, (log + [m])[j].token)
    {
      assert (log + [m])[..j] == log[..j];
      assert log[..|log|] == log;
      assert j < |log| ==> (log + [m])[j] == log[j];
    }
  }

  lemma InTurnNext(log: seq<Mark>, m: Mark)
    requires InTurn(log) && forall x :: x in log && x.id == m.id ==> x.FenceRead? && m.FencePut?
    ensures InTurn(log + [m])
  {}

  /** A mark that fits the log: a read before any other mark of its attempt, or a put after its read alone. */
  lemma MarkNoted(s0: L.Store, log: seq<Mark>, m: Mark)
    requires Orderly(s0, log) && forall x :: x in log && x.id == m.id ==> x.FenceRead? && m.FencePut?
    requires m.FenceRead? ==> m.token == FenceAfter(s0, log, |log|, m.lane) + 1
    requires m.FencePut? ==> ReadIn(log, m.id, m.lane, m.token)
    ensures Orderly(s0, log + [m])
  {
    ReadsDrawNext(s0, log, m);
    PutsDrawnNext(log, m);
    InTurnNext(log, m);
  }

  /** What holds of every world a run reaches. */
  ghost predicate Accounted(s0: L.Store, w: World, id: Id, lane: L.Lane) {
    Marked(w.log, id, w.attempts) && Backed(w.log, id, w.attempts)
    && L.FenceOf(w.store, lane) == FenceAfter(s0, w.log, |w.log|, lane)
  }

  lemma TurnAccounted(s0: L.Store, w: World, turn: Id, id: Id, lane: L.Lane)
    requires turn in w.attempts && Accounted(s0, w, id, lane) && Accounted(s0, w, turn, w.attempts[turn].lane)
    ensures Accounted(s0, Next(w, Turn(turn)), id, lane)
  {
    var w' := Next(w, Turn(turn));
    if |w'.log| > |w.log| {
      FencePrefix(s0, w.log, w'.log[|w.log|..], |w.log|, lane);
      assert w'.log == w.log + w'.log[|w.log|..];
    }
    MarksGrow(w, turn);
  }

  lemma MarksGrow(w: World, turn: Id)
    requires turn in w.attempts
    ensures var a, w' := w.attempts[turn], Next(w, Turn(turn));
            forall m :: m in w'.log <==>
              || m in w.log
              || (a.phase.Reading? && m == FenceRead(turn, a.lane, L.NextToken(w.store, a.lane)))
              || (a.phase.Putting? && m == FencePut(turn, a.lane, a.phase.token))
  {}

  lemma TurnOrderly(s0: L.Store, w: World, turn: Id)
    requires turn in w.attempts && Orderly(s0, w.log) && Accounted(s0, w, turn, w.attempts[turn].lane)
    ensures Orderly(s0, Next(w, Turn(turn)).log)
  {
    var a := w.attempts[turn];
    if a.phase.Reading? {
      MarkNoted(s0, w.log, FenceRead(turn, a.lane, L.NextToken(w.store, a.lane)));
    } else if a.phase.Putting? {
      MarkNoted(s0, w.log, FencePut(turn, a.lane, a.phase.token));
    }
  }

  lemma {:induction false} RunAccounted(s0: L.Store, events: seq<Event>, n: nat, id: Id, lane: L.Lane)
    requires n <= |events|
    ensures Accounted(s0, WorldAt(s0, events, n), id, lane)
  {
    if n == 0 {
      assert WorldAt(s0, events, 0).log == [];
    } else {
      var w, e := WorldAt(s0, events, n - 1), events[n - 1];
      RunAccounted(s0, events, n - 1, id, lane);
      if e.Turn? && e.id in w.attempts {
        RunAccounted(s0, events, n - 1, e.id, w.attempts[e.id].lane);
        TurnAccounted(s0, w, e.id, id, lane);
      }
    }
  }

  /** Every run's log is orderly. */
  lemma {:induction false} RunOrderly(s0: L.Store, events: seq<Event>, n: nat)
    requires n <= |events|
    ensures Orderly(s0, WorldAt(s0, events, n).log)
  {
    if n == 0 {
      assert WorldAt(s0, events, 0).log == [];
    } else {
      var w, e := WorldAt(s0, events, n - 1), events[n - 1];
      RunOrderly(s0, events, n - 1);
      if e.Turn? && e.id in w.attempts {
        RunAccounted(s0, events, n - 1, e.id, w.attempts[e.id].lane);
        TurnOrderly(s0, w, e.id);
      }
    }
  }

  // ---- when tokens repeat ----

  /** Between a read of the fence, mark i, and the put that follows from it, mark j. */
  ghost predicate Window(log: seq<Mark>, i: nat, j: nat, lane: L.Lane) {
    && i < j < |log| && log[i].FenceRead? && log[j].FencePut? && log[i].id == log[j].id
    && log[i].lane == log[j].lane == lane
  }

  /** One attempt reads the fence within the window of another, and both go on to put. */
  ghost predicate Overlap(log: seq<Mark>, i1: nat, j1: nat, i2: nat, j2: nat, lane: L.Lane) {
    Window(log, i1, j1, lane) && Window(log, i2, j2, lane) && i1 < i2 < j1
  }

  lemma WindowOf(s0: L.Store, log: seq<Mark>, j: nat) returns (i: nat)
    requires Orderly(s0, log) && j < |log| && log[j].FencePut?
    ensures Window(log, i, j, log[j].lane) && log[i].token == log[j].token
  {
    assert ReadIn(log[..j], log[j].id, log[j].lane, log[j].token);
    i :| 0 <= i < |log[..j]| && log[..j][i] == FenceRead(log[j].id, log[j].lane, log[j].token);
    assert log[i] == log[..j][i];
  }

  lemma WindowToken(s0: L.Store, log: seq<Mark>, i: nat, j: nat, lane: L.Lane)
    requires Orderly(s0, log) && Window(log, i, j, lane)
    ensures log[j].token == log[i].token == FenceAfter(s0, log, i, lane) + 1
  {
    var k := WindowOf(s0, log, j);
    SameMark(s0, log, i, k);
  }

  lemma SameMark(s0: L.Store, log: seq<Mark>, i: nat, k: nat)
    requires Orderly(s0, log) && i < |log| && k < |log| && log[i].id == log[k].id && log[i].FenceRead? == log[k].FenceRead?
    ensures i == k
  {}

  /** The fence is the token of the lane's last put. */
  lemma {:induction false} LastPut(s0: L.Store, log: seq<Mark>, from: nat, n: nat, lane: L.Lane) returns (j: nat)
    requires from < n <= |log| && log[from].FencePut? && log[from].lane == lane
    ensures from <= j < n && log[j].FencePut? && log[j].lane == lane && FenceAfter(s0, log, n, lane) == log[j].token
  {
    if log[n - 1].FencePut? && log[n - 1].lane == lane {
      j := n - 1;
    } else {
      j := LastPut(s0, log, from, n - 1, lane);
    }
  }

  lemma {:induction false} FenceStands(s0: L.Store, log: seq<Mark>, m: nat, n: nat, lane: L.Lane)
    requires m <= n <= |log| && forall k :: m <= k < n ==> !(log[k].FencePut? && log[k].lane == lane)
    ensures FenceAfter(s0, log, n, lane) == FenceAfter(s0, log, m, lane)
  {
    if m == n {
      assert FenceAfter(s0, log, n, lane) == FenceAfter(s0, log, m, lane);
    } else {
      FenceStands(s0, log, m, n - 1, lane);
    }
  }

  ghost predicate NoOverlap(log: seq<Mark>, lane: L.Lane) {
    forall i1, j1, i2, j2 :: !Overlap(log, i1, j1, i2, j2, lane)
  }

  /** Without overlaps the tokens put rise from put to put. */
  lemma {:induction false} PutsRise(s0: L.Store, log: seq<Mark>, lane: L.Lane, j1: nat, j2: nat)
    requires Orderly(s0, log) && NoOverlap(log, lane) && j1 < j2 < |log|
    requires log[j1].FencePut? && log[j2].FencePut? && log[j1].lane == lane == log[j2].lane
    ensures log[j1].token < log[j2].token
    decreases j2
  {
    var i1 := WindowOf(s0, log, j1);
    var i2 := WindowOf(s0, log, j2);
    assert !Overlap(log, i1, j1, i2, j2, lane) && !Overlap(log, i2, j2, i1, j1, lane);
    assert i1 != i2 && i2 != j1;
    WindowToken(s0, log, i2, j2, lane);
    var j := LastPut(s0, log, j1, i2, lane);
    if j1 < j {
      PutsRise(s0, log, lane, j1, j);
    }
  }

  lemma NotBefore(s0: L.Store, log: seq<Mark>, lane: L.Lane, i: nat, m: nat, i1: nat, j1: nat)
    requires Orderly(s0, log) && Window(log, i, m, lane) && Window(log, i1, j1, lane) && i1 <= i && m < j1
    ensures i1 < i
  {
    if log[m].id == log[j1].id {
      SameMark(s0, log, m, j1);
    }
  }

  /** A put between the two reads of an overlap is part of an overlap whose second read comes earlier. */
  lemma EarlierOverlap(s0: L.Store, log: seq<Mark>, lane: L.Lane, i1: nat, j1: nat, i2: nat, j2: nat, m: nat)
    returns (a1: nat, b1: nat, a2: nat, b2: nat)
    requires Orderly(s0, log) && Overlap(log, i1, j1, i2, j2, lane)
    requires i1 <= m < i2 && log[m].FencePut? && log[m].lane == lane
    ensures Overlap(log, a1, b1, a2, b2, lane) && a2 < i2
  {
    var i := WindowOf(s0, log, m);
    if i < i1 {
      a1, b1, a2, b2 := i, m, i1, j1;
    } else {
      NotBefore(s0, log, lane, i, m, i1, j1);
      a1, b1, a2, b2 := i1, j1, i, m;
    }
  }

  lemma FirstOverlapRepeats(s0: L.Store, log: seq<Mark>, lane: L.Lane, i1: nat, j1: nat, i2: nat, j2: nat)
    requires Orderly(s0, log) && Overlap(log, i1, j1, i2, j2, lane)
    requires forall m :: i1 <= m < i2 ==> !(log[m].FencePut? && log[m].lane == lane)
    ensures log[j1].token == log[j2].token && log[j1].id != log[j2].id
  {
    FenceStands(s0, log, i1, i2, lane);
    WindowToken(s0, log, i1, j1, lane);
    WindowToken(s0, log, i2, j2, lane);
    if log[j1].id == log[j2].id {
      SameMark(s0, log, i1, i2);
    }
  }

  /** An overlap makes two puts write one token: take the one whose second read comes first. */
  lemma {:induction false} OverlapRepeats(s0: L.Store, log: seq<Mark>, lane: L.Lane, i1: nat, j1: nat, i2: nat, j2: nat)
    returns (j: nat, k: nat)
    requires Orderly(s0, log) && Overlap(log, i1, j1, i2, j2, lane)
    ensures j < |log| && k < |log| && log[j].FencePut? && log[k].FencePut? && log[j].id != log[k].id
    ensures log[j].lane == lane == log[k].lane && log[j].token == log[k].token
    decreases i2
  {
    if m :| i1 <= m < i2 && log[m].FencePut? && log[m].lane == lane {
      var a1, b1, a2, b2 := EarlierOverlap(s0, log, lane, i1, j1, i2, j2, m);
      j, k := OverlapRepeats(s0, log, lane, a1, b1, a2, b2);
    } else {
      FirstOverlapRepeats(s0, log, lane, i1, j1, i2, j2);
      j, k := j1, j2;
    }
  }

  /** Two attempts hold one lane under one token. */
  ghost predicate TokenShared(w: World, lane: L.Lane) {
    exists x, y :: Shares(w, lane, x, y)
  }

  predicate Shares(w: World, lane: L.Lane, x: Id, y: Id) {
    && x in w.attempts && y in w.attempts && x != y
    && w.attempts[x].phase.Holding? && w.attempts[y].phase.Holding?
    && w.attempts[x].lane == lane == w.attempts[y].lane && w.attempts[x].phase.token == w.attempts[y].phase.token
  }

  lemma HolderPut(s0: L.Store, events: seq<Event>, n: nat, x: Id) returns (j: nat)
    requires n <= |events| && x in WorldAt(s0, events, n).attempts && WorldAt(s0, events, n).attempts[x].phase.Holding?
    ensures var w := WorldAt(s0, events, n);
            j < |w.log| && w.log[j] == FencePut(x, w.attempts[x].lane, w.attempts[x].phase.token)
  {
    var w := WorldAt(s0, events, n);
    RunAccounted(s0, events, n, x, w.attempts[x].lane);
    assert PutIn(w.log, x, w.attempts[x].lane, w.attempts[x].phase.token);
    j :| 0 <= j < |w.log| && w.log[j] == FencePut(x, w.attempts[x].lane, w.attempts[x].phase.token);
  }

  lemma PutHolds(s0: L.Store, events: seq<Event>, n: nat, j: nat)
    requires n <= |events| && j < |WorldAt(s0, events, n).log| && WorldAt(s0, events, n).log[j].FencePut?
    ensures var w := WorldAt(s0, events, n);
            var m := w.log[j];
            m.id in w.attempts && w.attempts[m.id].phase == Holding(m.token) && w.attempts[m.id].lane == m.lane
  {
    var m := WorldAt(s0, events, n).log[j];
    RunAccounted(s0, events, n, m.id, m.lane);
    assert m in WorldAt(s0, events, n).log;
  }

  /** Request by request, tokens of a lane are unique if and only if no granted attempt reads the fence
      between another's read and put. */
  lemma TokensUniqueIffNoOverlap(s0: L.Store, events: seq<Event>, n: nat, lane: L.Lane)
    requires n <= |events|
    ensures !TokenShared(WorldAt(s0, events, n), lane) <==> NoOverlap(WorldAt(s0, events, n).log, lane)
  {
    var w := WorldAt(s0, events, n);
    RunOrderly(s0, events, n);
    if i1, j1, i2, j2 :| Overlap(w.log, i1, j1, i2, j2, lane) {
      var j, k := OverlapRepeats(s0, w.log, lane, i1, j1, i2, j2);
      PutHolds(s0, events, n, j);
      PutHolds(s0, events, n, k);
      assert Shares(w, lane, w.log[j].id, w.log[k].id);
    } else if x, y :| Shares(w, lane, x, y) {
      var j := HolderPut(s0, events, n, x);
      var k := HolderPut(s0, events, n, y);
      assert j != k;
      PutsRise(s0, w.log, lane, if j < k then j else k, if j < k then k else j);
    }
  }

  // ---- a run that repeats a token ----

  function At(lane: L.Lane, gateway: string, phase: Phase): Attempt { Attempt(lane, gateway, "t", 0, phase) }

  function Race(lane: L.Lane): seq<Event> {
    [Start(0, lane, "g", "t", 0), Start(1, lane, "h", "t", 0), Turn(0), Turn(0), Turn(1), Turn(1),
     Turn(0), Disturb(map[]), Turn(1), Turn(0), Turn(1)]
  }

  /** The n-th world of the race, its log aside. */
  ghost predicate Reaches(lane: L.Lane, n: nat, s: L.Store, a: Phase, b: Phase)
    requires n <= 11
  {
    var w := WorldAt(L.EMPTY, Race(lane), n);
    w.store == s && w.attempts == map[0 := At(lane, "g", a), 1 := At(lane, "h", b)]
  }

  lemma RaceStep(lane: L.Lane, n: nat, s: L.Store, a: Phase, b: Phase)
    requires 2 <= n < 11 && Reaches(lane, n, s, a, b)
    ensures var e := Race(lane)[n];
            && (e == Turn(0) ==> var (t, c) := Request(s, At(lane, "g", a)); Reaches(lane, n + 1, t, c, b))
            && (e == Turn(1) ==> var (t, c) := Request(s, At(lane, "h", b)); Reaches(lane, n + 1, t, a, c))
            && (e.Disturb? ==> Reaches(lane, n + 1, s.(lanes := e.lanes), a, b))
  {
    assert WorldAt(L.EMPTY, Race(lane), n + 1) == Next(WorldAt(L.EMPTY, Race(lane), n), Race(lane)[n]);
  }

  lemma RaceStarts(lane: L.Lane)
    ensures Reaches(lane, 2, L.EMPTY, Looking, Looking)
  {
    assert WorldAt(L.EMPTY, Race(lane), 0).attempts == map[] && WorldAt(L.EMPTY, Race(lane), 0).store == L.EMPTY;
    assert WorldAt(L.EMPTY, Race(lane), 1).attempts == map[0 := At(lane, "g", Looking)];
  }

  lemma RaceReads(lane: L.Lane)
    ensures Reaches(lane, 6, L.EMPTY, Creating(1), Creating(1))
  {
    RaceStarts(lane);
    RaceStep(lane, 2, L.EMPTY, Looking, Looking);
    RaceStep(lane, 3, L.EMPTY, Reading, Looking);
    RaceStep(lane, 4, L.EMPTY, Creating(1), Looking);
    RaceStep(lane, 5, L.EMPTY, Creating(1), Reading);
  }

  function Held(gateway: string): L.Holder { L.Holder(gateway, "t", 1, Some(0)) }

  lemma RaceCreates(lane: L.Lane)
    ensures Reaches(lane, 9, L.Store(map[lane := Held("h")], map[]), Putting(1), Putting(1))
  {
    RaceReads(lane);
    RaceStep(lane, 6, L.EMPTY, Creating(1), Creating(1));
    RaceStep(lane, 7, L.Store(map[lane := Held("g")], map[]), Putting(1), Creating(1));
    RaceStep(lane, 8, L.EMPTY, Putting(1), Creating(1));
  }

  /** Both look and read, one creates, its entry expires, the other creates, both put: two holders of token 1,
      and the fence lets both pass. */
  lemma RaceRepeatsToken(lane: L.Lane)
    ensures var w := WorldAt(L.EMPTY, Race(lane), 11);
            Shares(w, lane, 0, 1) && L.Current(w.store, L.Lock(lane, w.attempts[0].phase.token))
  {
    var lanes := map[lane := Held("h")];
    RaceCreates(lane);
    RaceStep(lane, 9, L.Store(lanes, map[]), Putting(1), Putting(1));
    RaceStep(lane, 10, L.Store(lanes, map[lane := 1]), Holding(1), Putting(1));
    assert Reaches(lane, 11, L.Store(lanes, map[lane := 1]), Holding(1), Holding(1));
  }
}
