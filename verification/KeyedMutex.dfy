/** The agent's per-application lock: a map of mutexes that drops an entry once a TryLock on it succeeds.

  Goroutines are interleaved between any two of the lines below; `home` records the key each mutex
  object was made for, so a mutex is a number below |home|.
*/
module KeyedMutex {
  import opened Common

  type Key = nat

  datatype PC =
    | Idle
    | Entering(key: Key)          // about to lock the map
    | Looking(key: Key)           // holds the map, about to look the key up
    | Leaving(key: Key, m: nat)   // holds the map, about to release it
    | Waiting(key: Key, m: nat)   // about to lock m, or blocked on it
    | Holding(key: Key, m: nat)   // Lock has returned; the job runs
    | Returning(key: Key, m: nat) // has unlocked m, about to lock the map again
    | Trying(key: Key, m: nat)    // holds the map, about to TryLock m
    | Deleting(key: Key, m: nat)  // TryLock succeeded, about to delete the entry
    | Unlocking(key: Key, m: nat) // about to unlock m again
    | Closing(key: Key, m: nat)   // about to release the map
  {
    predicate InMap() {
      Looking? || Leaving? || Trying? || Deleting? || Unlocking? || Closing?
    }

    predicate Owns(m: nat) {
      (Holding? || Deleting? || Unlocking?) && this.m == m
    }

    /** Has taken the key's mutex out of the map and not given it back. */
    predicate Uses(key: Key) {
      (Leaving? || Waiting? || Holding?) && this.key == key
    }

    /** How many moves are left before the goroutine is idle again, at most. */
    function Left(): nat {
      match this
      case Idle => 0
      case Closing(_, _) => 1
      case Unlocking(_, _) => 2
      case Deleting(_, _) => 3
      case Trying(_, _) => 4
      case Returning(_, _) => 5
      case Holding(_, _) => 6
      case Waiting(_, _) => 7
      case Leaving(_, _) => 8
      case Looking(_) => 9
      case Entering(_) => 10
    }
  }

  datatype State = State(mu: Option<nat>, locks: map<Key, nat>, owner: map<nat, nat>, home: seq<Key>, pc: map<nat, PC>)
  {
    function At(g: nat): PC {
      if g in pc then pc[g] else Idle
    }
  }

  const INIT := State(None, map[], map[], [], map[])

  /** `key` is what an idle goroutine asks for; `spurious` lets a TryLock on a free mutex fail. */
  datatype Move = Move(g: nat, key: Key, spurious: bool)

  predicate Enabled(s: State, mv: Move) {
    match s.At(mv.g)
    case Entering(_) => s.mu == None
    case Returning(_, _) => s.mu == None
    case Waiting(_, m) => m !in s.owner
    case _ => true
  }

  function Next(s: State, mv: Move): State {
    var g := mv.g;
    match s.At(g)
    case Idle => s.(pc := s.pc[g := Entering(mv.key)])
    case Entering(key) => s.(mu := Some(g), pc := s.pc[g := Looking(key)])
    case Looking(key) =>
      if key in s.locks then
        s.(pc := s.pc[g := Leaving(key, s.locks[key])])
      else
        s.(locks := s.locks[key := |s.home|], home := s.home + [key], pc := s.pc[g := Leaving(key, |s.home|)])
    case Leaving(key, m) => s.(mu := None, pc := s.pc[g := Waiting(key, m)])
    case Waiting(key, m) => s.(owner := s.owner[m := g], pc := s.pc[g := Holding(key, m)])
    case Holding(key, m) => s.(owner := s.owner - {m}, pc := s.pc[g := Returning(key, m)])
    case Returning(key, m) => s.(mu := Some(g), pc := s.pc[g := Trying(key, m)])
    case Trying(key, m) =>
      if m !in s.owner && !mv.spurious then
        s.(owner := s.owner[m := g], pc := s.pc[g := Deleting(key, m)])
      else
        s.(pc := s.pc[g := Closing(key, m)])
    case Deleting(key, m) => s.(locks := s.locks - {key}, pc := s.pc[g := Unlocking(key, m)])
    case Unlocking(key, m) => s.(owner := s.owner - {m}, pc := s.pc[g := Closing(key, m)])
    case Closing(_, _) => s.(mu := None, pc := s.pc[g := Idle])
  }

  function After(s: State, moves: seq<Move>): State {
    if moves == [] then s else Next(After(s, moves[..|moves| - 1]), moves[|moves| - 1])
  }

  predicate Runs(s: State, moves: seq<Move>) {
    moves == [] || (Runs(s, moves[..|moves| - 1]) && Enabled(After(s, moves[..|moves| - 1]), moves[|moves| - 1]))
  }

  /** The entry about to be deleted is not checked out by anyone. */
  ghost predicate Clean(s: State, mv: Move) {
    s.At(mv.g).Deleting? ==> forall h: nat :: !s.At(h).Uses(s.At(mv.g).key)
  }

  ghost predicate CleanRun(s: State, moves: seq<Move>) {
    moves == [] || (CleanRun(s, moves[..|moves| - 1]) && Clean(After(s, moves[..|moves| - 1]), moves[|moves| - 1]))
  }

  lemma Extend(s: State, moves: seq<Move>, mv: Move)
    requires Runs(s, moves) && Enabled(After(s, moves), mv)
    ensures Runs(s, moves + [mv]) && After(s, moves + [mv]) == Next(After(s, moves), mv)
    ensures CleanRun(s, moves) && Clean(After(s, moves), mv) ==> CleanRun(s, moves + [mv])
  {
    assert (moves + [mv])[..|moves|] == moves;
  }

  // ---------------------------------------------------------------- every run

  /** How a goroutine's position shows in the shared state. */
  ghost predicate Placed(s: State, g: nat) {
    var pc := s.At(g);
    && (pc.InMap() <==> s.mu == Some(g))
    && (!pc.Idle? && !pc.Entering? && !pc.Looking? ==> pc.m < |s.home| && s.home[pc.m] == pc.key)
    && (pc.Holding? || pc.Deleting? || pc.Unlocking? ==> pc.m in s.owner && s.owner[pc.m] == g)
  }

  /** What holds whatever is deleted: one holder of the map, one owner per mutex, every mutex at home. */
  ghost predicate Inv(s: State) {
    && (forall g: nat :: Placed(s, g))
    && (forall m :: m in s.owner ==> m < |s.home| && s.At(s.owner[m]).Owns(m))
    && (forall key :: key in s.locks ==> s.locks[key] < |s.home| && s.home[s.locks[key]] == key)
  }

  lemma MoverStaysPlaced(s: State, mv: Move)
    requires Inv(s) && Enabled(s, mv)
    ensures Placed(Next(s, mv), mv.g)
  {
    assert Placed(s, mv.g);
  }

  lemma OthersStayPlaced(s: State, mv: Move, g: nat)
    requires Inv(s) && Enabled(s, mv) && g != mv.g
    ensures Placed(Next(s, mv), g)
  {
    assert Placed(s, mv.g) && Placed(s, g);
    assert Next(s, mv).At(g) == s.At(g);
  }

  lemma OwnersStay(s: State, mv: Move, m: nat)
    requires Inv(s) && Enabled(s, mv) && m in Next(s, mv).owner
    ensures var t := Next(s, mv); m < |t.home| && t.At(t.owner[m]).Owns(m)
  {
    assert Placed(s, mv.g);
    assert m in s.owner ==> Placed(s, s.owner[m]);
  }

  lemma InvStep(s: State, mv: Move)
    requires Inv(s) && Enabled(s, mv)
    ensures Inv(Next(s, mv))
  {
    var t := Next(s, mv);
    forall g: nat
      ensures Placed(t, g)
    {
      if g == mv.g {
        MoverStaysPlaced(s, mv);
      } else {
        OthersStayPlaced(s, mv, g);
      }
    }
    forall m | m in t.owner
      ensures m < |t.home| && t.At(t.owner[m]).Owns(m)
    {
      OwnersStay(s, mv, m);
    }
  }

  lemma {:induction false} InvRun(moves: seq<Move>)
    requires Runs(INIT, moves)
    ensures Inv(After(INIT, moves))
  {
    if moves != [] {
      InvRun(moves[..|moves| - 1]);
      InvStep(After(INIT, moves[..|moves| - 1]), moves[|moves| - 1]);
    }
  }

  /** Each mutex object has at most one holder in every run, clean or not. */
  lemma MutexExclusion(moves: seq<Move>, g: nat, h: nat, m: nat)
    requires Runs(INIT, moves)
    requires After(INIT, moves).At(g).Owns(m) && After(INIT, moves).At(h).Owns(m)
    ensures g == h
  {
    InvRun(moves);
    assert Placed(After(INIT, moves), g) && Placed(After(INIT, moves), h);
  }

  // ---------------------------------------------------------------- clean runs

  /** Whoever has a key checked out has it with the mutex the map still shows. */
  ghost predicate Registered(s: State) {
    forall g: nat, key :: s.At(g).Uses(key) ==> key in s.locks && s.locks[key] == s.At(g).m
  }

  lemma MoverIsRegistered(s: State, mv: Move, key: Key)
    requires Inv(s) && Registered(s) && Enabled(s, mv) && Next(s, mv).At(mv.g).Uses(key)
    ensures var t := Next(s, mv); key in t.locks && t.locks[key] == t.At(mv.g).m
  {
    assert s.At(mv.g).Uses(key) || s.At(mv.g) == Looking(key);
  }

  lemma OtherStaysRegistered(s: State, mv: Move, g: nat, key: Key)
    requires Registered(s) && Enabled(s, mv) && Clean(s, mv) && g != mv.g && s.At(g).Uses(key)
    ensures var t := Next(s, mv); t.At(g) == s.At(g) && key in t.locks && t.locks[key] == t.At(g).m
  {
  }

  lemma RegisteredStep(s: State, mv: Move)
    requires Inv(s) && Registered(s) && Enabled(s, mv) && Clean(s, mv)
    ensures Registered(Next(s, mv))
  {
    var t := Next(s, mv);
    forall g: nat, key | t.At(g).Uses(key)
      ensures key in t.locks && t.locks[key] == t.At(g).m
    {
      if g == mv.g {
        MoverIsRegistered(s, mv, key);
      } else {
        assert t.At(g) == s.At(g);
        OtherStaysRegistered(s, mv, g, key);
      }
    }
  }

  lemma {:induction false} RegisteredRun(moves: seq<Move>)
    requires Runs(INIT, moves) && CleanRun(INIT, moves)
    ensures Inv(After(INIT, moves)) && Registered(After(INIT, moves))
  {
    if moves != [] {
      RegisteredRun(moves[..|moves| - 1]);
      InvStep(After(INIT, moves[..|moves| - 1]), moves[|moves| - 1]);
      RegisteredStep(After(INIT, moves[..|moves| - 1]), moves[|moves| - 1]);
    }
  }

  ghost predicate Shared(s: State, key: Key) {
    exists g: nat, h: nat :: g != h && s.At(g).Holding? && s.At(h).Holding? && s.At(g).key == s.At(h).key == key
  }

  /** Per-key exclusion: while every deletion so far removed an entry nobody had out, no key has two holders. */
  lemma KeyExclusion(moves: seq<Move>, key: Key)
    requires Runs(INIT, moves) && CleanRun(INIT, moves)
    ensures !Shared(After(INIT, moves), key)
  {
    RegisteredRun(moves);
    NoSharing(After(INIT, moves), key);
  }

  /** A test the collector could make: the entry is the mutex it holds, and nobody is on the way to that mutex. */
  lemma OwnEntryWithoutWaitersIsClean(s: State, mv: Move)
    requires Inv(s) && Registered(s) && s.At(mv.g).Deleting?
    requires var pc := s.At(mv.g); pc.key in s.locks && s.locks[pc.key] == pc.m
    requires forall h: nat :: s.At(h) != Waiting(s.At(mv.g).key, s.At(mv.g).m)
    ensures Clean(s, mv)
  {
    var pc := s.At(mv.g);
    assert Placed(s, mv.g);
    forall h: nat
      ensures !s.At(h).Uses(pc.key)
    {
      assert Placed(s, h);
    }
  }

  // ---------------------------------------------------------------- the condition is exact

  /** From `s`, `moves` run, delete nothing that is in use, and put two goroutines inside `key`. */
  ghost predicate LeadsToSharing(s: State, moves: seq<Move>, key: Key) {
    Runs(s, moves) && CleanRun(s, moves) && Shared(After(s, moves), key)
  }

  lemma {:induction false} CleanContinuation(s: State, moves: seq<Move>)
    requires Inv(s) && Registered(s) && Runs(s, moves) && CleanRun(s, moves)
    ensures Inv(After(s, moves)) && Registered(After(s, moves))
  {
    if moves != [] {
      CleanContinuation(s, moves[..|moves| - 1]);
      InvStep(After(s, moves[..|moves| - 1]), moves[|moves| - 1]);
      RegisteredStep(After(s, moves[..|moves| - 1]), moves[|moves| - 1]);
    }
  }

  lemma NoSharing(s: State, key: Key)
    requires Inv(s) && Registered(s)
    ensures !Shared(s, key)
  {
    forall g: nat, h: nat | s.At(g).Holding? && s.At(h).Holding? && s.At(g).key == s.At(h).key == key
      ensures g == h
    {
      assert s.At(g).Uses(key) && s.At(h).Uses(key);
      assert s.At(g).m == s.locks[key] == s.At(h).m;
      assert Placed(s, g) && Placed(s, h);
    }
  }

  lemma FreshGoroutine(used: set<nat>) returns (f: nat)
    ensures f !in used && forall g :: g in used ==> g < f
    decreases used
  {
    if used == {} {
      f := 0;
    } else {
      var g :| g in used;
      f := FreshGoroutine(used - {g});
      f := if g < f then f else g + 1;
      assert forall h :: h in used ==> h == g || h in used - {g};
    }
  }

  /** One more move that is not a deletion. */
  lemma Push(s: State, moves: seq<Move>, mv: Move) returns (longer: seq<Move>)
    requires Runs(s, moves) && CleanRun(s, moves) && Inv(After(s, moves))
    requires Enabled(After(s, moves), mv) && !After(s, moves).At(mv.g).Deleting?
    ensures Runs(s, longer) && CleanRun(s, longer)
    ensures After(s, longer) == Next(After(s, moves), mv) && Inv(After(s, longer))
  {
    longer := moves + [mv];
    Extend(s, moves, mv);
    InvStep(After(s, moves), mv);
  }

  /** With the entry gone and the map free, one user of the key gets in, or is in already. */
  lemma OldUserGetsIn(s: State, moves: seq<Move>, u: nat, key: Key) returns (longer: seq<Move>, inside: nat)
    requires Runs(s, moves) && CleanRun(s, moves) && Inv(After(s, moves))
    requires After(s, moves).mu == None && key !in After(s, moves).locks
    requires After(s, moves).At(u).Waiting? || After(s, moves).At(u).Holding?
    requires After(s, moves).At(u).key == key
    ensures Runs(s, longer) && CleanRun(s, longer) && Inv(After(s, longer))
    ensures var t := After(s, longer);
            && t.mu == None && key !in t.locks && t.At(inside).Holding? && t.At(inside).key == key
  {
    var t := After(s, moves);
    var m := t.At(u).m;
    if t.At(u).Holding? {
      longer, inside := moves, u;
    } else if m in t.owner {
      longer, inside := moves, t.owner[m];
      assert Placed(t, inside) && Placed(t, u);
    } else {
      longer := Push(s, moves, Move(u, key, false));
      inside := u;
    }
  }

  /** A newcomer finds no entry and makes its own mutex. */
  lemma NewcomerMakesMutex(s: State, moves: seq<Move>, inside: nat, key: Key) returns (longer: seq<Move>, f: nat)
    requires Runs(s, moves) && CleanRun(s, moves) && Inv(After(s, moves))
    requires After(s, moves).mu == None && key !in After(s, moves).locks && !After(s, moves).At(inside).Idle?
    ensures Runs(s, longer) && CleanRun(s, longer) && Inv(After(s, longer))
    ensures var t := After(s, longer);
            && f != inside && t.At(inside) == After(s, moves).At(inside)
            && t.At(f).Leaving? && t.At(f).key == key && t.At(f).m !in t.owner
  {
    var before := After(s, moves);
    f := FreshGoroutine(before.pc.Keys);
    var mv := Move(f, key, false);
    longer := Push(s, moves, mv);
    assert After(s, longer).At(f) == Entering(key);
    longer := Push(s, longer, mv);
    assert After(s, longer).At(f) == Looking(key) && After(s, longer).locks == before.locks;
    longer := Push(s, longer, mv);
    assert After(s, longer).At(f) == Leaving(key, |before.home|) && After(s, longer).owner == before.owner;
  }

  /** And so it gets in too. */
  lemma NewcomerGetsIn(s: State, moves: seq<Move>, inside: nat, key: Key) returns (longer: seq<Move>)
    requires Runs(s, moves) && CleanRun(s, moves) && Inv(After(s, moves))
    requires After(s, moves).mu == None && key !in After(s, moves).locks
    requires After(s, moves).At(inside).Holding? && After(s, moves).At(inside).key == key
    ensures LeadsToSharing(s, longer, key)
  {
    var f;
    longer, f := NewcomerMakesMutex(s, moves, inside, key);
    var mv := Move(f, key, false);
    longer := Push(s, longer, mv);
    longer := Push(s, longer, mv);
    var t := After(s, longer);
    assert t.At(f).Holding? && t.At(inside).Holding? && t.At(f).key == t.At(inside).key == key;
  }

  /** In a state that clean moves have led to, a deletion endangers its key exactly when it is not clean. */
  lemma DeletionIsSafeIffClean(s: State, mv: Move)
    requires Inv(s) && Registered(s) && s.At(mv.g).Deleting?
    ensures Clean(s, mv) <==> !exists moves: seq<Move> :: LeadsToSharing(Next(s, mv), moves, s.At(mv.g).key)
  {
    var key := s.At(mv.g).key;
    var t := Next(s, mv);
    InvStep(s, mv);
    if Clean(s, mv) {
      RegisteredStep(s, mv);
      forall moves: seq<Move>
        ensures !LeadsToSharing(t, moves, key)
      {
        if Runs(t, moves) && CleanRun(t, moves) {
          CleanContinuation(t, moves);
          NoSharing(After(t, moves), key);
        }
      }
    } else {
      var u: nat :| s.At(u).Uses(key);
      assert Placed(s, mv.g) && Placed(s, u);
      var moves: seq<Move> := [];
      moves := Push(t, moves, mv);
      moves := Push(t, moves, mv);
      assert After(t, moves).mu == None && key !in After(t, moves).locks && After(t, moves).At(u) == s.At(u);
      var inside;
      moves, inside := OldUserGetsIn(t, moves, u, key);
      moves := NewcomerGetsIn(t, moves, inside, key);
      assert LeadsToSharing(t, moves, key);
    }
  }

  // ---------------------------------------------------------------- both halves of the condition are needed

  /** One more move of a clean run from the start. */
  lemma Go(moves: seq<Move>, g: nat, before: State) returns (longer: seq<Move>, after: State)
    requires Runs(INIT, moves) && CleanRun(INIT, moves) && After(INIT, moves) == before
    requires Enabled(before, Move(g, 0, false)) && Clean(before, Move(g, 0, false))
    ensures Runs(INIT, longer) && CleanRun(INIT, longer) && After(INIT, longer) == after
    ensures after == Next(before, Move(g, 0, false))
  {
    longer := moves + [Move(g, 0, false)];
    after := Next(before, Move(g, 0, false));
    Extend(INIT, moves, Move(g, 0, false));
  }

  lemma FirstHolder() returns (moves: seq<Move>, s: State)
    ensures Runs(INIT, moves) && CleanRun(INIT, moves) && After(INIT, moves) == s
    ensures s == State(None, map[0 := 0], map[0 := 1], [0], map[1 := Holding(0, 0)])
  {
    moves, s := [], INIT;
    moves, s := Go(moves, 1, s);
    moves, s := Go(moves, 1, s);
    assert s == State(Some(1), map[], map[], [], map[1 := Looking(0)]);
    moves, s := Go(moves, 1, s);
    moves, s := Go(moves, 1, s);
    assert s == State(None, map[0 := 0], map[], [0], map[1 := Waiting(0, 0)]);
    moves, s := Go(moves, 1, s);
  }

  lemma SecondWaits() returns (moves: seq<Move>, s: State)
    ensures Runs(INIT, moves) && CleanRun(INIT, moves) && After(INIT, moves) == s
    ensures s == State(None, map[0 := 0], map[], [0], map[1 := Returning(0, 0), 2 := Waiting(0, 0)])
  {
    moves, s := FirstHolder();
    moves, s := Go(moves, 2, s);
    moves, s := Go(moves, 2, s);
    moves, s := Go(moves, 2, s);
    moves, s := Go(moves, 2, s);
    moves, s := Go(moves, 1, s);
    assert map[0 := 1] - {0} == map[];
  }

  /** A collector may delete its own mutex's entry while a goroutine is on its way to that mutex. */
  lemma DeletionUnderAWaiter() returns (moves: seq<Move>)
    ensures Runs(INIT, moves) && CleanRun(INIT, moves)
    ensures var s := After(INIT, moves);
            && s.At(1) == Deleting(0, 0) && 0 in s.locks && s.locks[0] == 0 && s.At(2) == Waiting(0, 0)
            && !Clean(s, Move(1, 0, false))
  {
    var s;
    moves, s := SecondWaits();
    moves, s := Go(moves, 1, s);
    moves, s := Go(moves, 1, s);
    assert s.At(2).Uses(0);
  }

  lemma SecondCollects() returns (moves: seq<Move>, s: State)
    ensures Runs(INIT, moves) && CleanRun(INIT, moves) && After(INIT, moves) == s
    ensures s == State(Some(2), map[0 := 0], map[0 := 2], [0], map[1 := Returning(0, 0), 2 := Deleting(0, 0)])
  {
    moves, s := SecondWaits();
    moves, s := Go(moves, 2, s);
    moves, s := Go(moves, 2, s);
    moves, s := Go(moves, 2, s);
    moves, s := Go(moves, 2, s);
  }

  lemma SecondHasCollected() returns (moves: seq<Move>, s: State)
    ensures Runs(INIT, moves) && CleanRun(INIT, moves) && After(INIT, moves) == s
    ensures s == State(None, map[], map[], [0], map[1 := Returning(0, 0), 2 := Idle])
  {
    moves, s := SecondCollects();
    moves, s := Go(moves, 2, s);
    moves, s := Go(moves, 2, s);
    moves, s := Go(moves, 2, s);
  }

  lemma ThirdHolds() returns (moves: seq<Move>, s: State)
    ensures Runs(INIT, moves) && CleanRun(INIT, moves) && After(INIT, moves) == s
    ensures s == State(None, map[0 := 1], map[1 := 3], [0, 0], map[1 := Returning(0, 0), 2 := Idle, 3 := Holding(0, 1)])
  {
    moves, s := SecondHasCollected();
    moves, s := Go(moves, 3, s);
    moves, s := Go(moves, 3, s);
    moves, s := Go(moves, 3, s);
    moves, s := Go(moves, 3, s);
    moves, s := Go(moves, 3, s);
  }

  /** A late collector may delete an entry that another goroutine made after the first one was dropped. */
  lemma DeletionOfAnothersEntry() returns (moves: seq<Move>)
    ensures Runs(INIT, moves) && CleanRun(INIT, moves)
    ensures var s := After(INIT, moves);
            && s.At(1) == Deleting(0, 0) && 0 in s.locks && s.locks[0] == 1
            && s.At(3) == Holding(0, 1) && (forall h: nat :: s.At(h) != Waiting(0, 0))
            && !Clean(s, Move(1, 0, false))
  {
    var s;
    moves, s := ThirdHolds();
    moves, s := Go(moves, 1, s);
    moves, s := Go(moves, 1, s);
    assert s.At(3).Uses(0);
  }

  // ---------------------------------------------------------------- no deadlock, bounded work

  /** Whenever somebody is inside, somebody who is inside can move, however a TryLock turns out; no condition on
      deletions is needed. */
  lemma SomeoneCanMove(s: State, g: nat, spurious: bool) returns (mv: Move)
    requires Inv(s) && !s.At(g).Idle?
    ensures !s.At(mv.g).Idle? && Enabled(s, mv) && mv.spurious == spurious
  {
    mv := Move(g, 0, spurious);
    if s.mu.Some? {
      mv := Move(s.mu.value, 0, spurious);
      assert Placed(s, mv.g);
    } else if s.At(g).Waiting? && s.At(g).m in s.owner {
      mv := Move(s.owner[s.At(g).m], 0, spurious);
      assert Placed(s, mv.g);
    }
  }

  /** Every move of a goroutine that is inside brings it nearer to being idle, and moves nobody else. */
  lemma MovesAreBounded(s: State, mv: Move)
    requires Enabled(s, mv) && !s.At(mv.g).Idle?
    ensures Next(s, mv).At(mv.g).Left() < s.At(mv.g).Left()
    ensures forall h: nat :: h != mv.g ==> Next(s, mv).At(h) == s.At(h)
  {
  }
}
