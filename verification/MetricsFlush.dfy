/** The metrics buffer and the goroutines that flush it: ingests, size-triggered flushes and ticks, interleaved.

  Each critical section under the buffer lock is one move; the flush lock is held across several.
*/
module MetricsFlush {
  import opened Common

  const BATCH_SIZE: nat := 10

  datatype Phase<M> =
    | Arriving              // about to TryLock the flush lock
    | Locked                // has it, about to look at the buffer
    | Inserting(batch: seq<M>)
    | Releasing
    | Gone

  datatype Batch<M> = Batch(items: seq<M>, stored: bool)

  datatype State<M> = State(
    buffer: seq<M>,
    flushLock: Option<nat>,
    flushers: map<nat, Phase<M>>,
    batches: seq<Batch<M>>,   // what became of the batches taken so far
    ingested: seq<M>)         // everything ever ingested, in order

  datatype Move<M> =
    | Ingest(m: M, flusher: nat)
    | Tick(flusher: nat)
    | Flush(f: nat, inserted: bool)

  function Init<M>(): State<M> {
    State([], None, map[], [], [])
  }

  predicate Enabled<M>(s: State<M>, mv: Move<M>) {
    match mv
    case Ingest(_, f) => f !in s.flushers
    case Tick(f) => f !in s.flushers
    case Flush(f, _) => f in s.flushers && !s.flushers[f].Gone?
  }

  function Next<M>(s: State<M>, mv: Move<M>): State<M> {
    match mv
    case Ingest(m, f) =>
      var buffer := s.buffer + [m];
      s.(buffer := buffer, ingested := s.ingested + [m],
         flushers := if |buffer| >= BATCH_SIZE then s.flushers[f := Arriving] else s.flushers)
    case Tick(f) => s.(flushers := s.flushers[f := Arriving])
    case Flush(f, inserted) =>
      if f !in s.flushers then s else
      match s.flushers[f]
      case Arriving =>
        if s.flushLock == None then
          s.(flushLock := Some(f), flushers := s.flushers[f := Locked])
        else
          s.(flushers := s.flushers[f := Gone])
      case Locked =>
        if s.buffer == [] then
          s.(flushers := s.flushers[f := Releasing])
        else
          s.(buffer := [], flushers := s.flushers[f := Inserting(s.buffer)])
      case Inserting(batch) =>
        s.(batches := s.batches + [Batch(batch, inserted)], flushers := s.flushers[f := Releasing])
      case Releasing => s.(flushLock := None, flushers := s.flushers[f := Gone])
      case Gone => s
  }

  function After<M>(s: State<M>, moves: seq<Move<M>>): State<M> {
    if moves == [] then s else Next(After(s, moves[..|moves| - 1]), moves[|moves| - 1])
  }

  predicate Runs<M>(s: State<M>, moves: seq<Move<M>>) {
    moves == [] || (Runs(s, moves[..|moves| - 1]) && Enabled(After(s, moves[..|moves| - 1]), moves[|moves| - 1]))
  }

  /** The metrics of the batches, stored or lost, in the order taken. */
  function Taken<M>(batches: seq<Batch<M>>): seq<M> {
    if batches == [] then [] else Taken(batches[..|batches| - 1]) + batches[|batches| - 1].items
  }

  /** What the database has received, in the order received. */
  function Database<M>(batches: seq<Batch<M>>): seq<M> {
    if batches == [] then
      []
    else
      var last := batches[|batches| - 1];
      if last.stored then Database(batches[..|batches| - 1]) + last.items else Database(batches[..|batches| - 1])
  }

  /** The batch in the hands of the holder of the flush lock, if any. */
  function InFlight<M>(s: State<M>): seq<M> {
    if s.flushLock.Some? && s.flushLock.value in s.flushers && s.flushers[s.flushLock.value].Inserting? then
      s.flushers[s.flushLock.value].batch
    else
      []
  }

  ghost predicate Inv<M>(s: State<M>) {
    && (forall f :: f in s.flushers ==>
          ((s.flushers[f].Locked? || s.flushers[f].Inserting? || s.flushers[f].Releasing?) <==> s.flushLock == Some(f)))
    && (s.flushLock.Some? ==> s.flushLock.value in s.flushers)
    && s.ingested == Taken(s.batches) + InFlight(s) + s.buffer
  }

  lemma StartKeepsInv<M>(s: State<M>, mv: Move<M>)
    requires Inv(s) && Enabled(s, mv) && !mv.Flush?
    ensures Inv(Next(s, mv))
  {
    assert InFlight(Next(s, mv)) == InFlight(s);
  }

  lemma LockingKeepsInv<M>(s: State<M>, mv: Move<M>)
    requires Inv(s) && Enabled(s, mv) && mv.Flush? && (s.flushers[mv.f].Arriving? || s.flushers[mv.f].Releasing?)
    ensures Inv(Next(s, mv))
  {
    assert InFlight(Next(s, mv)) == InFlight(s);
  }

  lemma TakingKeepsInv<M>(s: State<M>, mv: Move<M>)
    requires Inv(s) && Enabled(s, mv) && mv.Flush? && s.flushers[mv.f].Locked?
    ensures Inv(Next(s, mv))
  {
    assert InFlight(s) == [] && InFlight(Next(s, mv)) == s.buffer;
    assert Taken(s.batches) + [] + s.buffer == Taken(s.batches) + s.buffer + [];
  }

  lemma InsertingKeepsInv<M>(s: State<M>, mv: Move<M>)
    requires Inv(s) && Enabled(s, mv) && mv.Flush? && s.flushers[mv.f].Inserting?
    ensures Inv(Next(s, mv))
  {
    var t, batch := Next(s, mv), s.flushers[mv.f].batch;
    assert t.batches[..|s.batches|] == s.batches;
    assert InFlight(s) == batch && InFlight(t) == [] && Taken(t.batches) == Taken(s.batches) + batch;
  }

  lemma InvStep<M>(s: State<M>, mv: Move<M>)
    requires Inv(s) && Enabled(s, mv)
    ensures Inv(Next(s, mv))
  {
    if !mv.Flush? {
      StartKeepsInv(s, mv);
    } else if s.flushers[mv.f].Locked? {
      TakingKeepsInv(s, mv);
    } else if s.flushers[mv.f].Inserting? {
      InsertingKeepsInv(s, mv);
    } else {
      LockingKeepsInv(s, mv);
    }
  }

  /** Conservation, at every moment of every run: ingested is taken, in flight, buffered, in that order;
      and at most one batch is in flight. */
  lemma {:induction false} NothingIsLostOrReordered<M>(moves: seq<Move<M>>)
    requires Runs(Init(), moves)
    ensures Inv(After(Init(), moves))
    ensures var s := After(Init(), moves);
            && s.ingested == Taken(s.batches) + InFlight(s) + s.buffer
            && forall f, g :: f in s.flushers && g in s.flushers && s.flushers[f].Inserting? && s.flushers[g].Inserting?
                 ==> f == g
  {
    if moves != [] {
      NothingIsLostOrReordered(moves[..|moves| - 1]);
      InvStep(After(Init(), moves[..|moves| - 1]), moves[|moves| - 1]);
    }
  }

  lemma {:induction false} DatabaseIsTakenIffNoLoss<M>(batches: seq<Batch<M>>)
    requires forall i :: 0 <= i < |batches| ==> |batches[i].items| > 0
    ensures |Database(batches)| <= |Taken(batches)|
    ensures Database(batches) == Taken(batches) <==> forall i :: 0 <= i < |batches| ==> batches[i].stored
  {
    if batches != [] {
      var n := |batches| - 1;
      DatabaseIsTakenIffNoLoss(batches[..n]);
      assert forall i :: 0 <= i < n ==> batches[..n][i] == batches[i];
      if !batches[n].stored || Database(batches[..n]) != Taken(batches[..n]) {
        if batches[n].stored && Database(batches) == Taken(batches) {
          SameTail(Database(batches[..n]), Taken(batches[..n]), batches[n].items);
        }
      }
    }
  }

  lemma SameTail<M>(a: seq<M>, b: seq<M>, tail: seq<M>)
    requires a + tail == b + tail
    ensures a == b
  {
    assert |a| == |b|;
    assert a == (a + tail)[..|a|] && b == (b + tail)[..|b|];
  }

  ghost predicate NoEmptyBatch<M>(s: State<M>) {
    && (forall i :: 0 <= i < |s.batches| ==> |s.batches[i].items| > 0)
    && (forall f :: f in s.flushers && s.flushers[f].Inserting? ==> |s.flushers[f].batch| > 0)
  }

  lemma NoEmptyBatchStep<M>(s: State<M>, mv: Move<M>)
    requires NoEmptyBatch(s) && Enabled(s, mv)
    ensures NoEmptyBatch(Next(s, mv))
  {
  }

  lemma {:induction false} BatchesAreNotEmpty<M>(moves: seq<Move<M>>)
    requires Runs(Init(), moves)
    ensures NoEmptyBatch(After(Init(), moves))
  {
    if moves != [] {
      BatchesAreNotEmpty(moves[..|moves| - 1]);
      NoEmptyBatchStep(After(Init(), moves[..|moves| - 1]), moves[|moves| - 1]);
    }
  }

  lemma SameHead<M>(whole: seq<M>, a: seq<M>, b: seq<M>, mid: seq<M>, tail: seq<M>)
    requires whole == a + mid + tail
    ensures whole == b + mid + tail <==> a == b
  {
    assert a + mid + tail == a + (mid + tail) && b + mid + tail == b + (mid + tail);
    if whole == b + mid + tail {
      SameTail(a, b, mid + tail);
    }
  }

  /** What is neither in flight nor buffered is in the database, once each and in ingest order, exactly when no insert
      failed. */
  lemma DatabaseHasEverythingIffNoInsertFailed<M>(moves: seq<Move<M>>)
    requires Runs(Init(), moves)
    ensures var s := After(Init(), moves);
            s.ingested == Database(s.batches) + InFlight(s) + s.buffer
            <==> forall i :: 0 <= i < |s.batches| ==> s.batches[i].stored
  {
    var s := After(Init(), moves);
    NothingIsLostOrReordered(moves);
    BatchesAreNotEmpty(moves);
    DatabaseIsTakenIffNoLoss(s.batches);
    SameHead(s.ingested, Taken(s.batches), Database(s.batches), InFlight(s), s.buffer);
  }

  // ---------------------------------------------------------------- every flush flushes

  /** An ingest starts a flusher exactly when the buffer then holds ten metrics; a tick always does. */
  lemma StartsFlusherIff<M>(s: State<M>, mv: Move<M>)
    requires !mv.Flush? && mv.flusher !in s.flushers
    ensures Enabled(s, mv)
    ensures var t := Next(s, mv);
            if mv.Tick? then mv.flusher in t.flushers && t.flushers[mv.flusher] == Arriving && t.buffer == s.buffer
            else
              && t.buffer == s.buffer + [mv.m]
              && (mv.flusher in t.flushers <==> |s.buffer| >= 9)
              && (mv.flusher in t.flushers ==> t.flushers[mv.flusher] == Arriving)
  {
  }

  /** A flusher that arrives gets the lock exactly when nobody has it, and gives up otherwise. */
  lemma ArrivalLocksIff<M>(s: State<M>, f: nat, inserted: bool)
    requires Inv(s) && f in s.flushers && s.flushers[f] == Arriving
    ensures Enabled(s, Flush(f, inserted))
    ensures var t := Next(s, Flush(f, inserted));
            && (t.flushLock == Some(f) <==> s.flushLock == None)
            && t.flushers[f] == (if s.flushLock == None then Locked else Gone)
            && t.buffer == s.buffer && t.batches == s.batches
  {
  }

  predicate ByOthers<M>(moves: seq<Move<M>>, f: nat) {
    forall i :: 0 <= i < |moves| ==> !(moves[i].Flush? && moves[i].f == f)
  }

  /** While f has the lock the others can only add to the buffer. */
  lemma {:induction false} OthersOnlyAdd<M>(s: State<M>, moves: seq<Move<M>>, f: nat)
    requires Inv(s) && s.flushLock == Some(f) && Runs(s, moves) && ByOthers(moves, f)
    ensures var t := After(s, moves);
            && Inv(t) && t.flushLock == Some(f) && t.flushers[f] == s.flushers[f]
            && t.batches == s.batches && s.buffer <= t.buffer
  {
    if moves != [] {
      var front, mv := moves[..|moves| - 1], moves[|moves| - 1];
      OthersOnlyAdd(s, front, f);
      InvStep(After(s, front), mv);
    }
  }

  /** The flusher with the lock takes the whole buffer that it finds, however long the others kept it waiting. */
  lemma HolderTakesTheBuffer<M>(s: State<M>, f: nat, meanwhile: seq<Move<M>>, inserted: bool)
    requires Inv(s) && f in s.flushers && s.flushers[f] == Locked && Runs(s, meanwhile) && ByOthers(meanwhile, f)
    ensures var t := After(s, meanwhile);
            var u := Next(t, Flush(f, inserted));
            && Enabled(t, Flush(f, inserted)) && s.buffer <= t.buffer
            && u.buffer == [] && u.batches == s.batches
            && u.flushers[f] == if t.buffer == [] then Releasing else Inserting(t.buffer)
  {
    OthersOnlyAdd(s, meanwhile, f);
  }

  /** What it took is recorded as one batch, stored or lost, and no other batch before it. */
  lemma TakenBufferIsRecorded<M>(s: State<M>, f: nat, meanwhile: seq<Move<M>>, inserted: bool)
    requires Inv(s) && f in s.flushers && s.flushers[f].Inserting? && Runs(s, meanwhile) && ByOthers(meanwhile, f)
    ensures var t := After(s, meanwhile);
            var u := Next(t, Flush(f, inserted));
            && Enabled(t, Flush(f, inserted)) && u.flushers[f] == Releasing
            && u.batches == s.batches + [Batch(s.flushers[f].batch, inserted)]
  {
    OthersOnlyAdd(s, meanwhile, f);
  }

  /** And then the lock is free again. */
  lemma LockIsReturned<M>(s: State<M>, f: nat, meanwhile: seq<Move<M>>, inserted: bool)
    requires Inv(s) && f in s.flushers && s.flushers[f] == Releasing && Runs(s, meanwhile) && ByOthers(meanwhile, f)
    ensures var t := After(s, meanwhile);
            var u := Next(t, Flush(f, inserted));
            Enabled(t, Flush(f, inserted)) && u.flushers[f] == Gone && u.flushLock == None && u.batches == s.batches
  {
    OthersOnlyAdd(s, meanwhile, f);
  }

  function OwnMoves<M>(moves: seq<Move<M>>, f: nat): nat {
    if moves == [] then 0 else
    var last := moves[|moves| - 1];
    OwnMoves(moves[..|moves| - 1], f) + if last.Flush? && last.f == f then 1 else 0
  }

  function MovesLeft<M>(phase: Phase<M>): nat {
    match phase
    case Arriving => 4
    case Locked => 3
    case Inserting(_) => 2
    case Releasing => 1
    case Gone => 0
  }

  lemma FlusherAdvances<M>(s: State<M>, mv: Move<M>, f: nat)
    requires Enabled(s, mv) && f in s.flushers
    ensures var t := Next(s, mv);
            && f in t.flushers
            && MovesLeft(t.flushers[f]) + (if mv.Flush? && mv.f == f then 1 else 0) <= MovesLeft(s.flushers[f])
            && (!(mv.Flush? && mv.f == f) ==> t.flushers[f] == s.flushers[f])
  {
  }

  lemma {:induction false} FlusherUsesItsMoves<M>(s: State<M>, moves: seq<Move<M>>, f: nat)
    requires Runs(s, moves) && f in s.flushers
    ensures f in After(s, moves).flushers
    ensures OwnMoves(moves, f) + MovesLeft(After(s, moves).flushers[f]) <= MovesLeft(s.flushers[f])
  {
    if moves != [] {
      FlusherUsesItsMoves(s, moves[..|moves| - 1], f);
      FlusherAdvances(After(s, moves[..|moves| - 1]), moves[|moves| - 1], f);
    }
  }

  /** In every interleaving a flusher is gone after at most four moves of its own. */
  lemma FlusherIsGoneAfterFour<M>(s: State<M>, moves: seq<Move<M>>, f: nat)
    requires Runs(s, moves) && f in s.flushers
    ensures OwnMoves(moves, f) <= 4 && f in After(s, moves).flushers
    ensures OwnMoves(moves, f) == 4 ==> After(s, moves).flushers[f] == Gone
  {
    FlusherUsesItsMoves(s, moves, f);
  }

  lemma Go<M>(s: State<M>, moves: seq<Move<M>>, mv: Move<M>) returns (longer: seq<Move<M>>)
    requires Runs(s, moves) && Enabled(After(s, moves), mv)
    ensures longer == moves + [mv] && Runs(s, longer) && After(s, longer) == Next(After(s, moves), mv)
  {
    longer := moves + [mv];
    assert longer[..|moves|] == moves;
  }

  lemma LockAndTake<M>(moves: seq<Move<M>>, f: nat, inserted: bool) returns (longer: seq<Move<M>>)
    requires Runs(Init(), moves)
    requires var s := After(Init(), moves); f in s.flushers && s.flushers[f] == Arriving && s.flushLock == None
    ensures longer == moves + [Flush(f, inserted), Flush(f, inserted)] && Runs(Init(), longer)
    ensures var s, t := After(Init(), moves), After(Init(), longer);
            && f in t.flushers && t.flushLock == Some(f) && t.buffer == [] && t.batches == s.batches
            && t.flushers[f] == if s.buffer == [] then Releasing else Inserting(s.buffer)
  {
    longer := Go(Init(), moves, Flush(f, inserted));
    longer := Go(Init(), longer, Flush(f, inserted));
  }

  /** From any reachable state with the lock free, an uninterrupted flush empties the buffer into one batch and leaves
      the lock free; an empty buffer makes no batch. */
  lemma UninterruptedFlush<M>(moves: seq<Move<M>>, f: nat, inserted: bool) returns (longer: seq<Move<M>>)
    requires Runs(Init(), moves)
    requires var s := After(Init(), moves); f in s.flushers && s.flushers[f] == Arriving && s.flushLock == None
    ensures moves <= longer && Runs(Init(), longer)
    ensures forall i :: |moves| <= i < |longer| ==> longer[i] == Flush(f, inserted)
    ensures |longer| == |moves| + if After(Init(), moves).buffer == [] then 3 else 4
    ensures var s, t := After(Init(), moves), After(Init(), longer);
            && t.buffer == [] && t.flushLock == None && f in t.flushers && t.flushers[f] == Gone
            && t.batches == s.batches + (if s.buffer == [] then [] else [Batch(s.buffer, inserted)])
  {
    longer := LockAndTake(moves, f, inserted);
    if After(Init(), moves).buffer != [] {
      longer := Go(Init(), longer, Flush(f, inserted));
    }
    longer := Go(Init(), longer, Flush(f, inserted));
  }
}
