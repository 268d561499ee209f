/** One batch of the agent's job workers: a closed channel of jobs, a buffered channel of results, and the keyed
    lock. */
module WorkerPool {
  import opened Common
  import KM = KeyedMutex

  datatype Job = Job(id: nat, app: Option<nat>)

  datatype Outcome = Fine | StartFailed | ExecutionFailed | FinishFailed

  /** Where a worker's loop body stands. */
  datatype Stage =
    | Fetching
    | Locking(job: Job)
    | Starting(job: Job)
    | Executing(job: Job)
    | Finishing(job: Job, executed: bool)
    | Releasing(job: Job, outcome: Outcome)
    | Sending(job: Job, outcome: Outcome)
    | Done

  datatype State = State(
    queue: seq<Job>,
    results: seq<(Job, Outcome)>,
    capacity: nat,
    workers: seq<Stage>,
    km: KM.State)

  /** `ok` is how the call at this stage ends; `spurious` is passed on to the lock. */
  datatype Action = Action(w: nat, ok: bool, spurious: bool)

  function LockMove(s: State, a: Action): KM.Move {
    KM.Move(a.w,
            if a.w < |s.workers| && s.workers[a.w].Fetching? && s.queue != [] && s.queue[0].app.Some?
            then s.queue[0].app.value else 0,
            a.spurious)
  }

  /** A batch as the poller sets it up: all jobs buffered, the channel closed, room for every result. */
  function Batch(jobs: seq<Job>, workers: nat, km: KM.State): State {
    State(jobs, [], |jobs|, seq(workers, _ => Fetching), km)
  }

  predicate Enabled(s: State, a: Action) {
    && a.w < |s.workers|
    && match s.workers[a.w]
       case Done => false
       case Locking(_) => KM.Enabled(s.km, LockMove(s, a))
       case Releasing(_, _) => KM.Enabled(s.km, LockMove(s, a))
       case Sending(_, _) => |s.results| < s.capacity
       case _ => true
  }

  function NextLock(s: State, a: Action): KM.State
    requires a.w < |s.workers|
  {
    var st := s.workers[a.w];
    if st.Locking? || st.Releasing? || (st.Fetching? && s.queue != [] && s.queue[0].app.Some?) then
      KM.Next(s.km, LockMove(s, a))
    else
      s.km
  }

  function Conclude(job: Job, outcome: Outcome): Stage {
    if job.app.Some? then Releasing(job, outcome) else Sending(job, outcome)
  }

  /** The stage after a move; `pc` is where the lock has the worker by then. */
  function NextStage(st: Stage, queue: seq<Job>, ok: bool, pc: KM.PC): Stage {
    match st
    case Fetching =>
      if queue == [] then Done else if queue[0].app.Some? then Locking(queue[0]) else Starting(queue[0])
    case Locking(job) => if pc.Holding? then Starting(job) else st
    case Starting(job) => if ok then Executing(job) else Conclude(job, StartFailed)
    case Executing(job) => Finishing(job, ok)
    case Finishing(job, executed) =>
      Conclude(job, if !ok then FinishFailed else if executed then Fine else ExecutionFailed)
    case Releasing(job, outcome) => if pc.Idle? then Sending(job, outcome) else st
    case Sending(_, _) => Fetching
    case Done => Done
  }

  function Next(s: State, a: Action): State {
    if a.w >= |s.workers| then s else
    var st := s.workers[a.w];
    var km := NextLock(s, a);
    State(if st.Fetching? && s.queue != [] then s.queue[1..] else s.queue,
          if st.Sending? then s.results + [(st.job, st.outcome)] else s.results,
          s.capacity,
          s.workers[a.w := NextStage(st, s.queue, a.ok, km.At(a.w))],
          km)
  }

  function After(s: State, acts: seq<Action>): State {
    if acts == [] then s else Next(After(s, acts[..|acts| - 1]), acts[|acts| - 1])
  }

  predicate Runs(s: State, acts: seq<Action>) {
    acts == [] || (Runs(s, acts[..|acts| - 1]) && Enabled(After(s, acts[..|acts| - 1]), acts[|acts| - 1]))
  }

  // ---------------------------------------------------------------- accounting

  function Load(st: Stage): multiset<Job> {
    if st.Fetching? || st.Done? then multiset{} else multiset{st.job}
  }

  function InHand(workers: seq<Stage>): multiset<Job> {
    if workers == [] then multiset{} else InHand(workers[..|workers| - 1]) + Load(workers[|workers| - 1])
  }

  function Reported(results: seq<(Job, Outcome)>): multiset<Job> {
    if results == [] then multiset{} else Reported(results[..|results| - 1]) + multiset{results[|results| - 1].0}
  }

  lemma {:induction false} InHandUpdate(workers: seq<Stage>, w: nat, st: Stage)
    requires w < |workers|
    ensures InHand(workers[w := st]) + Load(workers[w]) == InHand(workers) + Load(st)
  {
    var n := |workers| - 1;
    if w < n {
      InHandUpdate(workers[..n], w, st);
      assert workers[w := st][..n] == workers[..n][w := st] && workers[..n][w] == workers[w];
      BalanceBeside(InHand(workers[..n][w := st]), Load(workers[w]), InHand(workers[..n]), Load(st), Load(workers[n]));
    } else {
      assert workers[w := st][..n] == workers[..n];
    }
  }

  lemma {:induction false} ReportedSize(results: seq<(Job, Outcome)>)
    ensures |Reported(results)| == |results|
  {
    if results != [] {
      ReportedSize(results[..|results| - 1]);
    }
  }

  ghost predicate InStep(st: Stage, pc: KM.PC) {
    match st
    case Locking(job) =>
      job.app.Some? && (pc.Entering? || pc.Looking? || pc.Leaving? || pc.Waiting?) && pc.key == job.app.value
    case Releasing(job, _) =>
      job.app.Some?
      && (pc.Holding? || pc.Returning? || pc.Trying? || pc.Deleting? || pc.Unlocking? || pc.Closing?)
    case Starting(job) => InCall(job, pc)
    case Executing(job) => InCall(job, pc)
    case Finishing(job, _) => InCall(job, pc)
    case _ => pc.Idle?
  }

  ghost predicate InCall(job: Job, pc: KM.PC) {
    if job.app.Some? then pc.Holding? && pc.key == job.app.value else pc.Idle?
  }

  /** What the invariant says of one worker, or of a number that is none. */
  ghost predicate InPlace(s: State, w: nat) {
    if w < |s.workers| then InStep(s.workers[w], s.km.At(w)) && (s.workers[w].Done? ==> s.queue == [])
    else s.km.At(w).Idle?
  }

  /** Every job is queued, in a worker's hands, or reported, once; the lock agrees with where the workers are. */
  ghost predicate Inv(jobs: seq<Job>, s: State) {
    && s.capacity == |jobs|
    && multiset(jobs) == multiset(s.queue) + InHand(s.workers) + Reported(s.results)
    && KM.Inv(s.km)
    && (forall w: nat :: InPlace(s, w))
  }

  ghost predicate Quiet(km: KM.State) {
    KM.Inv(km) && forall g: nat :: km.At(g).Idle?
  }

  lemma {:induction false} NothingInHand(n: nat)
    ensures InHand(seq(n, _ => Fetching)) == multiset{}
  {
    if n > 0 {
      NothingInHand(n - 1);
      assert seq(n, _ => Fetching)[..n - 1] == seq(n - 1, _ => Fetching);
    }
  }

  /** A move passes at most one job on: from the queue to a hand, or from a hand to the results. */
  lemma StageMovesOneJob(st: Stage, queue: seq<Job>, ok: bool, pc: KM.PC)
    ensures Load(NextStage(st, queue, ok, pc))
            == if st.Fetching? && queue != [] then multiset{queue[0]}
               else if st.Sending? then multiset{}
               else Load(st)
  {
  }

  lemma Flow(st: Stage, queue: seq<Job>, results: seq<(Job, Outcome)>, now: multiset<Job>)
    requires now == if st.Fetching? && queue != [] then multiset{queue[0]}
                    else if st.Sending? then multiset{}
                    else Load(st)
    ensures multiset(if st.Fetching? && queue != [] then queue[1..] else queue) + now
            + Reported(if st.Sending? then results + [(st.job, st.outcome)] else results)
            == multiset(queue) + Load(st) + Reported(results)
  {
    if st.Fetching? && queue != [] {
      assert queue == [queue[0]] + queue[1..];
    } else if st.Sending? {
      assert (results + [(st.job, st.outcome)])[..|results|] == results;
    }
  }

  lemma AccountsBalance(jobs: seq<Job>, s: State, a: Action)
    requires multiset(jobs) == multiset(s.queue) + InHand(s.workers) + Reported(s.results) && Enabled(s, a)
    ensures var t := Next(s, a); multiset(jobs) == multiset(t.queue) + InHand(t.workers) + Reported(t.results)
  {
    var t := Next(s, a);
    var was := s.workers[a.w];
    var now := NextStage(was, s.queue, a.ok, NextLock(s, a).At(a.w));
    StageMovesOneJob(was, s.queue, a.ok, NextLock(s, a).At(a.w));
    Flow(was, s.queue, s.results, Load(now));
    InHandUpdate(s.workers, a.w, now);
    Rebalance(multiset(s.queue), InHand(s.workers), Reported(s.results), multiset(t.queue), InHand(t.workers),
              Reported(t.results), Load(was), Load(now));
  }

  lemma Rebalance(q: multiset<Job>, h: multiset<Job>, r: multiset<Job>, q': multiset<Job>, h': multiset<Job>,
                  r': multiset<Job>, was: multiset<Job>, now: multiset<Job>)
    requires q' + now + r' == q + was + r && h' + was == h + now
    ensures q' + h' + r' == q + h + r
  {
    forall j: Job
      ensures (q' + h' + r')[j] == (q + h + r)[j]
    {
      assert (q' + now + r')[j] == (q + was + r)[j] && (h' + was)[j] == (h + now)[j];
    }
  }

  lemma LockStep(jobs: seq<Job>, s: State, a: Action)
    requires Inv(jobs, s) && Enabled(s, a)
    ensures var t := Next(s, a);
            && KM.Inv(t.km)
            && (forall g: nat :: g != a.w ==> t.km.At(g) == s.km.At(g))
            && InStep(t.workers[a.w], t.km.At(a.w))
  {
    assert InPlace(s, a.w);
    if KM.Enabled(s.km, LockMove(s, a)) {
      KM.InvStep(s.km, LockMove(s, a));
    }
  }

  lemma MoverStaysInPlace(jobs: seq<Job>, s: State, a: Action)
    requires Inv(jobs, s) && Enabled(s, a)
    ensures InPlace(Next(s, a), a.w)
  {
    assert InPlace(s, a.w);
    LockStep(jobs, s, a);
  }

  lemma OtherStaysInPlace(jobs: seq<Job>, s: State, a: Action, w: nat)
    requires Inv(jobs, s) && Enabled(s, a) && w != a.w
    ensures InPlace(Next(s, a), w)
  {
    assert InPlace(s, w);
    LockStep(jobs, s, a);
  }

  lemma InvStep(jobs: seq<Job>, s: State, a: Action)
    requires Inv(jobs, s) && Enabled(s, a)
    ensures Inv(jobs, Next(s, a))
  {
    AccountsBalance(jobs, s, a);
    LockStep(jobs, s, a);
    forall w: nat
      ensures InPlace(Next(s, a), w)
    {
      if w == a.w {
        MoverStaysInPlace(jobs, s, a);
      } else {
        OtherStaysInPlace(jobs, s, a, w);
      }
    }
  }

  lemma {:induction false} InvRun(jobs: seq<Job>, workers: nat, km: KM.State, acts: seq<Action>)
    requires Quiet(km) && Runs(Batch(jobs, workers, km), acts)
    ensures var s := After(Batch(jobs, workers, km), acts); Inv(jobs, s) && |s.workers| == workers
  {
    if acts == [] {
      NothingInHand(workers);
    } else {
      InvRun(jobs, workers, km, acts[..|acts| - 1]);
      InvStep(jobs, After(Batch(jobs, workers, km), acts[..|acts| - 1]), acts[|acts| - 1]);
    }
  }

  // ---------------------------------------------------------------- no send blocks, no deadlock

  lemma {:induction false} InHandHas(workers: seq<Stage>, w: nat)
    requires w < |workers|
    ensures Load(workers[w]) <= InHand(workers)
  {
    if w < |workers| - 1 {
      InHandHas(workers[..|workers| - 1], w);
    }
  }

  /** There is always room for a result: a worker about to send is never blocked. */
  lemma SendNeverBlocks(jobs: seq<Job>, s: State, w: nat)
    requires Inv(jobs, s) && w < |s.workers| && s.workers[w].Sending?
    ensures |s.results| < s.capacity
  {
    InHandHas(s.workers, w);
    ReportedSize(s.results);
    assert |multiset(jobs)| == |jobs|;
    assert s.workers[w].job in InHand(s.workers);
  }

  /** While a worker is not done, some worker can move, whatever the lock deletes and however its call ends. */
  lemma NoDeadlock(jobs: seq<Job>, s: State, w: nat, ok: bool, spurious: bool) returns (a: Action)
    requires Inv(jobs, s) && w < |s.workers| && !s.workers[w].Done?
    ensures Enabled(s, a) && a.ok == ok && a.spurious == spurious
    ensures s.workers[w].Starting? || s.workers[w].Executing? || s.workers[w].Finishing? ==> a.w == w
  {
    a := Action(w, ok, spurious);
    assert InPlace(s, w);
    match s.workers[w]
    case Sending(_, _) =>
      SendNeverBlocks(jobs, s, w);
    case Locking(_) =>
      a := LockHolderMoves(jobs, s, w, ok, spurious);
    case Releasing(_, _) =>
      a := LockHolderMoves(jobs, s, w, ok, spurious);
    case _ =>
  }

  lemma LockHolderMoves(jobs: seq<Job>, s: State, w: nat, ok: bool, spurious: bool) returns (a: Action)
    requires Inv(jobs, s) && w < |s.workers| && !s.km.At(w).Idle?
    ensures Enabled(s, a) && a.ok == ok && a.spurious == spurious
  {
    var mv := KM.SomeoneCanMove(s.km, w, spurious);
    a := Action(mv.g, ok, spurious);
    assert InPlace(s, mv.g);
  }

  // ---------------------------------------------------------------- every batch ends

  const JOB_MOVES: nat := 16

  function Weight(st: Stage, pc: KM.PC): nat {
    match st
    case Done => 0
    case Fetching => 1
    case Sending(_, _) => 2
    case Releasing(_, _) => 2 + pc.Left()
    case Finishing(_, _) => 3 + pc.Left()
    case Executing(_) => 4 + pc.Left()
    case Starting(_) => 5 + pc.Left()
    case Locking(_) => 6 + pc.Left()
  }

  function Weights(workers: seq<Stage>, km: KM.State): nat {
    if workers == [] then
      0
    else
      Weights(workers[..|workers| - 1], km) + Weight(workers[|workers| - 1], km.At(|workers| - 1))
  }

  function Work(s: State): nat {
    JOB_MOVES * |s.queue| + Weights(s.workers, s.km)
  }

  lemma {:induction false} WeightsUpdate(workers: seq<Stage>, km: KM.State, km': KM.State, w: nat, st: Stage)
    requires w < |workers| && forall g: nat :: g != w ==> km'.At(g) == km.At(g)
    ensures Weights(workers[w := st], km') + Weight(workers[w], km.At(w))
            == Weights(workers, km) + Weight(st, km'.At(w))
  {
    var n := |workers| - 1;
    if w < n {
      WeightsUpdate(workers[..n], km, km', w, st);
      assert workers[w := st][..n] == workers[..n][w := st];
    } else {
      assert workers[w := st][..n] == workers[..n];
      WeightsSame(workers[..n], km, km');
    }
  }

  lemma {:induction false} WeightsSame(workers: seq<Stage>, km: KM.State, km': KM.State)
    requires forall g: nat :: g < |workers| ==> km'.At(g) == km.At(g)
    ensures Weights(workers, km') == Weights(workers, km)
  {
    if workers != [] {
      WeightsSame(workers[..|workers| - 1], km, km');
    }
  }

  lemma MoverLightens(jobs: seq<Job>, s: State, a: Action)
    requires Inv(jobs, s) && Enabled(s, a)
    ensures var t := Next(s, a);
            JOB_MOVES * |t.queue| + Weight(t.workers[a.w], t.km.At(a.w))
            < JOB_MOVES * |s.queue| + Weight(s.workers[a.w], s.km.At(a.w))
  {
    assert InPlace(s, a.w);
    var mv := LockMove(s, a);
    if KM.Enabled(s.km, mv) && !s.km.At(a.w).Idle? {
      KM.MovesAreBounded(s.km, mv);
    }
  }

  lemma WorkShrinks(jobs: seq<Job>, s: State, a: Action)
    requires Inv(jobs, s) && Enabled(s, a)
    ensures Work(Next(s, a)) < Work(s)
  {
    var t := Next(s, a);
    LockStep(jobs, s, a);
    MoverLightens(jobs, s, a);
    WeightsUpdate(s.workers, s.km, t.km, a.w, t.workers[a.w]);
  }

  lemma {:induction false} InitialWeights(n: nat, km: KM.State)
    ensures Weights(seq(n, _ => Fetching), km) == n
  {
    if n > 0 {
      InitialWeights(n - 1, km);
      assert seq(n, _ => Fetching)[..n - 1] == seq(n - 1, _ => Fetching);
    }
  }

  /** No batch takes more than sixteen moves a job and one a worker. */
  lemma {:induction false} BatchIsBounded(jobs: seq<Job>, workers: nat, km: KM.State, acts: seq<Action>)
    requires Quiet(km) && Runs(Batch(jobs, workers, km), acts)
    ensures |acts| + Work(After(Batch(jobs, workers, km), acts)) <= JOB_MOVES * |jobs| + workers
  {
    if acts == [] {
      InitialWeights(workers, km);
    } else {
      BatchIsBounded(jobs, workers, km, acts[..|acts| - 1]);
      InvRun(jobs, workers, km, acts[..|acts| - 1]);
      WorkShrinks(jobs, After(Batch(jobs, workers, km), acts[..|acts| - 1]), acts[|acts| - 1]);
    }
  }

  lemma {:induction false} AllDoneHoldNothing(workers: seq<Stage>)
    requires forall w: nat :: w < |workers| ==> workers[w].Done?
    ensures InHand(workers) == multiset{}
  {
    if workers != [] {
      AllDoneHoldNothing(workers[..|workers| - 1]);
    }
  }

  /** When no worker can move any more, every fetched job has been reported exactly once and the lock is idle. */
  lemma StuckMeansComplete(jobs: seq<Job>, workers: nat, km: KM.State, acts: seq<Action>, s: State)
    requires Quiet(km) && workers > 0 && Runs(Batch(jobs, workers, km), acts)
    requires s == After(Batch(jobs, workers, km), acts)
    requires forall a: Action :: !Enabled(s, a)
    ensures forall w: nat :: w < |s.workers| ==> s.workers[w].Done?
    ensures s.queue == [] && Reported(s.results) == multiset(jobs) && |s.results| == |jobs|
    ensures Quiet(s.km)
  {
    InvRun(jobs, workers, km, acts);
    forall w: nat | w < |s.workers|
      ensures s.workers[w].Done?
    {
      if !s.workers[w].Done? {
        var a := NoDeadlock(jobs, s, w, true, false);
      }
    }
    assert InPlace(s, 0) && s.workers[0].Done?;
    AllDoneHoldNothing(s.workers);
    ReportedSize(s.results);
    forall g: nat
      ensures s.km.At(g).Idle?
    {
      assert InPlace(s, g);
    }
  }

  // ---------------------------------------------------------------- what is called for each job

  /** The calls that leave the worker, with how they end: two to the control plane, and the execution between them. */
  datatype Call =
    | Start(job: Job, ok: bool)
    | Execute(job: Job, ok: bool)
    | Finish(job: Job, success: bool, ok: bool)

  function CallOf(st: Stage, ok: bool): seq<Call> {
    match st
    case Starting(job) => [Start(job, ok)]
    case Executing(job) => [Execute(job, ok)]
    case Finishing(job, success) => [Finish(job, success, ok)]
    case _ => []
  }

  function Calls(s: State, acts: seq<Action>): seq<Call> {
    if acts == [] then [] else
    var before, a := After(s, acts[..|acts| - 1]), acts[|acts| - 1];
    Calls(s, acts[..|acts| - 1]) + if a.w < |before.workers| then CallOf(before.workers[a.w], a.ok) else []
  }

  /** What a job may be waiting for in a worker's hands. */
  datatype Account = ToExecute(job: Job) | ToFinish(job: Job, executed: bool) | ToReport(job: Job, outcome: Outcome)

  function Carries(st: Stage, acc: Account): nat {
    match acc
    case ToExecute(job) => if st == Executing(job) then 1 else 0
    case ToFinish(job, executed) => if st == Finishing(job, executed) then 1 else 0
    case ToReport(job, outcome) => if st == Releasing(job, outcome) || st == Sending(job, outcome) then 1 else 0
  }

  function Carried(workers: seq<Stage>, acc: Account): nat {
    if workers == [] then 0 else Carried(workers[..|workers| - 1], acc) + Carries(workers[|workers| - 1], acc)
  }

  lemma {:induction false} CarriedUpdate(workers: seq<Stage>, w: nat, st: Stage, acc: Account)
    requires w < |workers|
    ensures Carried(workers[w := st], acc) + Carries(workers[w], acc) == Carried(workers, acc) + Carries(st, acc)
  {
    var n := |workers| - 1;
    if w < n {
      CarriedUpdate(workers[..n], w, st, acc);
      assert workers[w := st][..n] == workers[..n][w := st] && workers[..n][w] == workers[w];
    } else {
      assert workers[w := st][..n] == workers[..n];
    }
  }

  lemma {:induction false} NothingCarried(workers: seq<Stage>, acc: Account)
    requires forall w :: 0 <= w < |workers| ==> workers[w].Fetching? || workers[w].Done?
    ensures Carried(workers, acc) == 0
  {
    if workers != [] {
      NothingCarried(workers[..|workers| - 1], acc);
    }
  }

  /** The calls made and the results reported so far. */
  datatype Books = Books(calls: multiset<Call>, results: multiset<(Job, Outcome)>)

  function BooksOf(calls: seq<Call>, results: seq<(Job, Outcome)>): Books {
    Books(multiset(calls), multiset(results))
  }

  /** The calls that led to an outcome: the last one tells them apart. */
  function Causes(calls: multiset<Call>, job: Job, outcome: Outcome): nat {
    match outcome
    case Fine => calls[Finish(job, true, true)]
    case StartFailed => calls[Start(job, false)]
    case ExecutionFailed => calls[Finish(job, false, true)]
    case FinishFailed => calls[Finish(job, true, false)] + calls[Finish(job, false, false)]
  }

  /** How often it came to that, and how often it was done; n times it still waits. */
  ghost predicate Balanced(acc: Account, books: Books, n: nat) {
    var calls := books.calls;
    match acc
    case ToExecute(job) => calls[Start(job, true)] == calls[Execute(job, true)] + calls[Execute(job, false)] + n
    case ToFinish(job, executed) =>
      calls[Execute(job, executed)] == calls[Finish(job, executed, true)] + calls[Finish(job, executed, false)] + n
    case ToReport(job, outcome) => Causes(calls, job, outcome) == books.results[(job, outcome)] + n
  }

  /** What one move from this stage adds to the books. */
  ghost predicate OneMore(books: Books, books': Books, st: Stage, ok: bool) {
    && (forall c: Call :: books'.calls[c] == books.calls[c] + if CallOf(st, ok) == [c] then 1 else 0)
    && (forall r: (Job, Outcome) ::
          books'.results[r] == books.results[r] + if st.Sending? && (st.job, st.outcome) == r then 1 else 0)
  }

  lemma ExecutionsBalance(st: Stage, queue: seq<Job>, ok: bool, pc: KM.PC, acc: Account, was: Books, now: Books,
                          n: nat, n': nat)
    requires acc.ToExecute? && Balanced(acc, was, n) && OneMore(was, now, st, ok)
    requires n' + Carries(st, acc) == n + Carries(NextStage(st, queue, ok, pc), acc)
    ensures Balanced(acc, now, n')
  {
  }

  lemma FinishesBalance(st: Stage, queue: seq<Job>, ok: bool, pc: KM.PC, acc: Account, was: Books, now: Books,
                        n: nat, n': nat)
    requires acc.ToFinish? && Balanced(acc, was, n) && OneMore(was, now, st, ok)
    requires n' + Carries(st, acc) == n + Carries(NextStage(st, queue, ok, pc), acc)
    ensures Balanced(acc, now, n')
  {
  }

  /** A job that comes to be reported does so by the call that causes its outcome. */
  lemma OutcomeHasCause(st: Stage, queue: seq<Job>, ok: bool, pc: KM.PC, acc: Account, was: Books, now: Books)
    requires acc.ToReport? && OneMore(was, now, st, ok)
    ensures Causes(now.calls, acc.job, acc.outcome) + (if st.Sending? then 0 else Carries(st, acc))
            == Causes(was.calls, acc.job, acc.outcome)
               + if st.Sending? then 0 else Carries(NextStage(st, queue, ok, pc), acc)
  {
  }

  lemma ReportsBalance(st: Stage, queue: seq<Job>, ok: bool, pc: KM.PC, acc: Account, was: Books, now: Books,
                       n: nat, n': nat)
    requires acc.ToReport? && Balanced(acc, was, n) && OneMore(was, now, st, ok)
    requires n' + Carries(st, acc) == n + Carries(NextStage(st, queue, ok, pc), acc)
    ensures Balanced(acc, now, n')
  {
    OutcomeHasCause(st, queue, ok, pc, acc, was, now);
    assert now.results[(acc.job, acc.outcome)]
           == was.results[(acc.job, acc.outcome)] + if st.Sending? then Carries(st, acc) else 0;
  }

  lemma MoveKeepsBalance(s: State, a: Action, acc: Account, calls: seq<Call>)
    requires Enabled(s, a) && Balanced(acc, BooksOf(calls, s.results), Carried(s.workers, acc))
    ensures var t := Next(s, a);
            Balanced(acc, BooksOf(calls + CallOf(s.workers[a.w], a.ok), t.results), Carried(t.workers, acc))
  {
    var st, t, pc := s.workers[a.w], Next(s, a), NextLock(s, a).At(a.w);
    var was, now := BooksOf(calls, s.results), BooksOf(calls + CallOf(st, a.ok), t.results);
    var n, n' := Carried(s.workers, acc), Carried(t.workers, acc);
    CarriedUpdate(s.workers, a.w, t.workers[a.w], acc);
    assert OneMore(was, now, st, a.ok);
    match acc
    case ToExecute(_) => ExecutionsBalance(st, s.queue, a.ok, pc, acc, was, now, n, n');
    case ToFinish(_, _) => FinishesBalance(st, s.queue, a.ok, pc, acc, was, now, n, n');
    case ToReport(_, _) => ReportsBalance(st, s.queue, a.ok, pc, acc, was, now, n, n');
  }

  /** At every moment of a run: as many executions as successful starts, but for the workers about to execute; then as
      many finish calls, each with the status of its execution; then as many results, each with the outcome of its
      calls. */
  lemma {:induction false} CallsBalance(jobs: seq<Job>, workers: nat, km: KM.State, acts: seq<Action>, acc: Account)
    requires Runs(Batch(jobs, workers, km), acts)
    ensures var b := Batch(jobs, workers, km);
            var s := After(b, acts);
            Balanced(acc, BooksOf(Calls(b, acts), s.results), Carried(s.workers, acc))
  {
    var b := Batch(jobs, workers, km);
    if acts == [] {
      NothingCarried(b.workers, acc);
    } else {
      var front, a := acts[..|acts| - 1], acts[|acts| - 1];
      CallsBalance(jobs, workers, km, front, acc);
      MoveKeepsBalance(After(b, front), a, acc, Calls(b, front));
    }
  }

  lemma {:induction false} ReportedByOutcome(results: seq<(Job, Outcome)>, job: Job)
    ensures var all := multiset(results);
            Reported(results)[job]
            == all[(job, Fine)] + all[(job, StartFailed)] + all[(job, ExecutionFailed)] + all[(job, FinishFailed)]
  {
    if results != [] {
      var front, last := results[..|results| - 1], results[|results| - 1];
      ReportedByOutcome(front, job);
      assert results == front + [last];
      assert multiset(results) == multiset(front) + multiset{(last.0, last.1)};
      assert last.1 == Fine || last.1 == StartFailed || last.1 == ExecutionFailed || last.1 == FinishFailed;
    }
  }

  /** In a complete batch a job has failed to start as often as its start was refused, and has otherwise had one
      execution and one finish call for each time it was fetched. The status that call reports is the execution's, and
      the outcome is fine exactly when all three calls were. */
  lemma EveryJobIsFinished(jobs: seq<Job>, workers: nat, km: KM.State, acts: seq<Action>, job: Job)
    requires Quiet(km) && workers > 0 && Runs(Batch(jobs, workers, km), acts)
    requires forall a: Action :: !Enabled(After(Batch(jobs, workers, km), acts), a)
    ensures var calls := multiset(Calls(Batch(jobs, workers, km), acts));
            var results := multiset(After(Batch(jobs, workers, km), acts).results);
            && multiset(jobs)[job] == calls[Start(job, true)] + calls[Start(job, false)]
            && calls[Start(job, true)] == calls[Execute(job, true)] + calls[Execute(job, false)]
            && calls[Execute(job, true)] == calls[Finish(job, true, true)] + calls[Finish(job, true, false)]
            && calls[Execute(job, false)] == calls[Finish(job, false, true)] + calls[Finish(job, false, false)]
            && results[(job, Fine)] == calls[Finish(job, true, true)]
            && results[(job, StartFailed)] == calls[Start(job, false)]
            && results[(job, ExecutionFailed)] == calls[Finish(job, false, true)]
            && results[(job, FinishFailed)] == calls[Finish(job, true, false)] + calls[Finish(job, false, false)]
  {
    var s := After(Batch(jobs, workers, km), acts);
    StuckMeansComplete(jobs, workers, km, acts, s);
    ReportedByOutcome(s.results, job);
    var books := BooksOf(Calls(Batch(jobs, workers, km), acts), s.results);
    forall acc: Account
      ensures Balanced(acc, books, 0)
    {
      NothingCarried(s.workers, acc);
      CallsBalance(jobs, workers, km, acts, acc);
    }
    SettledBooks(books, job);
  }

  lemma SettledBooks(books: Books, job: Job)
    requires forall acc: Account :: Balanced(acc, books, 0)
    ensures var calls, results := books.calls, books.results;
            && calls[Start(job, true)] == calls[Execute(job, true)] + calls[Execute(job, false)]
            && calls[Execute(job, true)] == calls[Finish(job, true, true)] + calls[Finish(job, true, false)]
            && calls[Execute(job, false)] == calls[Finish(job, false, true)] + calls[Finish(job, false, false)]
            && results[(job, Fine)] == calls[Finish(job, true, true)]
            && results[(job, StartFailed)] == calls[Start(job, false)]
            && results[(job, ExecutionFailed)] == calls[Finish(job, false, true)]
            && results[(job, FinishFailed)] == calls[Finish(job, true, false)] + calls[Finish(job, false, false)]
  {
    assert Balanced(ToExecute(job), books, 0);
    assert Balanced(ToFinish(job, true), books, 0) && Balanced(ToFinish(job, false), books, 0);
    assert Balanced(ToReport(job, Fine), books, 0) && Balanced(ToReport(job, StartFailed), books, 0);
    assert Balanced(ToReport(job, ExecutionFailed), books, 0) && Balanced(ToReport(job, FinishFailed), books, 0);
  }

  // ---------------------------------------------------------------- one job per application at a time

  ghost predicate CleanAction(s: State, a: Action) {
    a.w < |s.workers| && (s.workers[a.w].Locking? || s.workers[a.w].Releasing?) ==> KM.Clean(s.km, LockMove(s, a))
  }

  ghost predicate CleanRun(s: State, acts: seq<Action>) {
    acts == [] || (CleanRun(s, acts[..|acts| - 1]) && CleanAction(After(s, acts[..|acts| - 1]), acts[|acts| - 1]))
  }

  lemma {:induction false} CleanRunRegisters(jobs: seq<Job>, workers: nat, km: KM.State, acts: seq<Action>)
    requires Quiet(km) && Runs(Batch(jobs, workers, km), acts) && CleanRun(Batch(jobs, workers, km), acts)
    ensures KM.Registered(After(Batch(jobs, workers, km), acts).km)
  {
    if acts != [] {
      var a := acts[|acts| - 1];
      var s := After(Batch(jobs, workers, km), acts[..|acts| - 1]);
      CleanRunRegisters(jobs, workers, km, acts[..|acts| - 1]);
      InvRun(jobs, workers, km, acts[..|acts| - 1]);
      assert InPlace(s, a.w);
      if Next(s, a).km != s.km {
        KM.RegisteredStep(s.km, LockMove(s, a));
      }
    }
  }

  /** While the lock deletes nothing in use, two workers never execute jobs of the same application. */
  lemma OneJobPerApplication(jobs: seq<Job>, workers: nat, km: KM.State, acts: seq<Action>, s: State, v: nat, w: nat)
    requires Quiet(km) && Runs(Batch(jobs, workers, km), acts) && CleanRun(Batch(jobs, workers, km), acts)
    requires s == After(Batch(jobs, workers, km), acts)
    requires v < |s.workers| && w < |s.workers| && s.workers[v].Executing? && s.workers[w].Executing?
    requires s.workers[v].job.app.Some? && s.workers[v].job.app == s.workers[w].job.app
    ensures v == w
  {
    CleanRunRegisters(jobs, workers, km, acts);
    InvRun(jobs, workers, km, acts);
    var key := s.workers[v].job.app.value;
    KM.NoSharing(s.km, key);
    assert InPlace(s, v) && InPlace(s, w);
    assert s.km.At(v).key == s.km.At(w).key == key;
  }

  // ---------------------------------------------------------------- when a deletion endangers the pool

  /** Somebody has the application's lock looked up and not yet unlocked. */
  ghost predicate CheckedOut(s: State, key: KM.Key) {
    exists g: nat :: s.km.At(g).Uses(key)
  }

  /** Somebody is about to ask for the application's lock, or a job that will is still in the queue. */
  ghost predicate Wanted(s: State, key: KM.Key) {
    || (exists g: nat :: s.km.At(g) == KM.Entering(key))
    || (exists k :: 0 <= k < |s.queue| && s.queue[k].app == Some(key))
  }

  /** From `s`, `acts` run, delete nothing that is in use, and put two workers inside the application's lock. */
  ghost predicate LeadsToSharing(s: State, acts: seq<Action>, key: KM.Key) {
    Runs(s, acts) && CleanRun(s, acts) && KM.Shared(After(s, acts).km, key)
  }

  ghost predicate MayShare(s: State, key: KM.Key) {
    exists acts :: LeadsToSharing(s, acts, key)
  }

  lemma {:induction false} CleanContinuation(jobs: seq<Job>, s: State, acts: seq<Action>)
    requires Inv(jobs, s) && KM.Registered(s.km) && Runs(s, acts) && CleanRun(s, acts)
    ensures Inv(jobs, After(s, acts)) && KM.Registered(After(s, acts).km)
  {
    if acts != [] {
      var front, a := acts[..|acts| - 1], acts[|acts| - 1];
      CleanContinuation(jobs, s, front);
      InvStep(jobs, After(s, front), a);
      CleanStepRegisters(jobs, After(s, front), a);
    }
  }

  lemma CleanStepRegisters(jobs: seq<Job>, s: State, a: Action)
    requires Inv(jobs, s) && KM.Registered(s.km) && Enabled(s, a) && CleanAction(s, a)
    ensures KM.Registered(Next(s, a).km)
  {
    assert InPlace(s, a.w);
    if Next(s, a).km != s.km {
      KM.RegisteredStep(s.km, LockMove(s, a));
    }
  }

  /** All who have the lock checked out have the same mutex, and nobody else is coming. */
  ghost predicate Alike(s: State, key: KM.Key, m: nat) {
    && (forall g: nat :: s.km.At(g).Uses(key) ==> s.km.At(g).m == m)
    && (forall g: nat :: s.km.At(g) != KM.Entering(key) && s.km.At(g) != KM.Looking(key))
    && (forall k :: 0 <= k < |s.queue| ==> s.queue[k].app != Some(key))
  }

  lemma AlikeStep(jobs: seq<Job>, s: State, a: Action, key: KM.Key, m: nat)
    requires Inv(jobs, s) && Enabled(s, a) && Alike(s, key, m)
    ensures Alike(Next(s, a), key, m)
  {
    var t := Next(s, a);
    LockStep(jobs, s, a);
    assert InPlace(s, a.w);
    forall g: nat
      ensures t.km.At(g).Uses(key) ==> t.km.At(g).m == m
      ensures t.km.At(g) != KM.Entering(key) && t.km.At(g) != KM.Looking(key)
    {
      assert g != a.w ==> t.km.At(g) == s.km.At(g);
    }
  }

  lemma {:induction false} AlikeRun(jobs: seq<Job>, s: State, acts: seq<Action>, key: KM.Key, m: nat)
    requires Inv(jobs, s) && Alike(s, key, m) && Runs(s, acts)
    ensures Inv(jobs, After(s, acts)) && Alike(After(s, acts), key, m)
  {
    if acts != [] {
      var front := acts[..|acts| - 1];
      AlikeRun(jobs, s, front, key, m);
      InvStep(jobs, After(s, front), acts[|acts| - 1]);
      AlikeStep(jobs, After(s, front), acts[|acts| - 1], key, m);
    }
  }

  lemma AlikeIsNotShared(s: State, key: KM.Key, m: nat)
    requires KM.Inv(s.km) && Alike(s, key, m)
    ensures !KM.Shared(s.km, key)
  {
    forall g: nat, h: nat | s.km.At(g).Holding? && s.km.At(h).Holding? && s.km.At(g).key == s.km.At(h).key == key
      ensures g == h
    {
      assert s.km.At(g).Uses(key) && s.km.At(h).Uses(key);
      assert KM.Placed(s.km, g) && KM.Placed(s.km, h);
    }
  }

  lemma Snoc(s: State, acts: seq<Action>, a: Action)
    ensures After(s, acts + [a]) == Next(After(s, acts), a)
    ensures Runs(s, acts + [a]) <==> Runs(s, acts) && Enabled(After(s, acts), a)
    ensures CleanRun(s, acts + [a]) <==> CleanRun(s, acts) && CleanAction(After(s, acts), a)
  {
    assert (acts + [a])[..|acts|] == acts;
  }

  ghost predicate CleanlyReaches(s: State, acts: seq<Action>, t: State) {
    Runs(s, acts) && CleanRun(s, acts) && After(s, acts) == t
  }

  lemma ReachOneMore(s: State, acts: seq<Action>, t: State, a: Action)
    requires CleanlyReaches(s, acts, t) && Enabled(t, a) && CleanAction(t, a)
    ensures CleanlyReaches(s, acts + [a], Next(t, a))
  {
    Snoc(s, acts, a);
  }

  lemma ReachOneLess(s: State, acts: seq<Action>, t: State) returns (before: State)
    requires CleanlyReaches(s, acts, t) && acts != []
    ensures CleanlyReaches(s, acts[..|acts| - 1], before)
    ensures var a := acts[|acts| - 1]; Enabled(before, a) && CleanAction(before, a) && t == Next(before, a)
  {
    before := After(s, acts[..|acts| - 1]);
  }

  lemma {:induction false} PrependRun(s: State, a: Action, acts: seq<Action>, t: State)
    requires Enabled(s, a) && CleanAction(s, a) && CleanlyReaches(Next(s, a), acts, t)
    ensures CleanlyReaches(s, [a] + acts, t)
  {
    if acts == [] {
      ReachOneMore(s, [], s, a);
      assert [a] + acts == [] + [a];
    } else {
      var front, last := acts[..|acts| - 1], acts[|acts| - 1];
      assert [a] + acts == ([a] + front) + [last];
      var before := ReachOneLess(Next(s, a), acts, t);
      PrependRun(s, a, front, before);
      ReachOneMore(s, [a] + front, before, last);
    }
  }

  /** An action that deletes nothing, taken first. */
  lemma Precede(s: State, a: Action, key: KM.Key)
    requires Enabled(s, a) && !s.km.At(a.w).Deleting? && MayShare(Next(s, a), key)
    ensures MayShare(s, key)
  {
    var acts :| LeadsToSharing(Next(s, a), acts, key);
    PrependRun(s, a, acts, After(Next(s, a), acts));
    assert LeadsToSharing(s, [a] + acts, key);
  }

  lemma NewcomerLocks(jobs: seq<Job>, s: State, v: nat, inside: nat, key: KM.Key)
    requires Inv(jobs, s) && v != inside
    requires s.km.At(v).Waiting? && s.km.At(v).key == key && s.km.At(v).m !in s.km.owner
    requires s.km.At(inside).Holding? && s.km.At(inside).key == key
    ensures MayShare(s, key)
  {
    var a := Action(v, true, false);
    assert InPlace(s, v);
    var t := Next(s, a);
    assert t.km.At(v).Holding? && t.km.At(inside) == s.km.At(inside);
    assert KM.Shared(t.km, key);
    assert LeadsToSharing(t, [], key);
    Precede(s, a, key);
  }

  lemma NewcomerEnters(jobs: seq<Job>, s: State, v: nat, inside: nat, key: KM.Key)
    requires Inv(jobs, s) && s.km.mu == None && key !in s.km.locks
    requires s.km.At(v) == KM.Entering(key) && s.km.At(inside).Holding? && s.km.At(inside).key == key
    ensures MayShare(s, key)
  {
    var a := Action(v, true, false);
    assert InPlace(s, v);
    var looking := Next(s, a);
    InvStep(jobs, s, a);
    assert looking.km.At(v) == KM.Looking(key) && looking.km.At(inside) == s.km.At(inside) && key !in looking.km.locks;
    assert InPlace(looking, v);
    var leaving := Next(looking, a);
    InvStep(jobs, looking, a);
    assert leaving.km.At(v) == KM.Leaving(key, |s.km.home|) && leaving.km.At(inside) == s.km.At(inside);
    assert |s.km.home| !in leaving.km.owner;
    assert InPlace(leaving, v);
    var waiting := Next(leaving, a);
    InvStep(jobs, leaving, a);
    assert waiting.km.At(v) == KM.Waiting(key, |s.km.home|) && waiting.km.At(inside) == s.km.At(inside);
    NewcomerLocks(jobs, waiting, v, inside, key);
    Precede(leaving, a, key);
    Precede(looking, a, key);
    Precede(s, a, key);
  }

  /** One worker inside the lock whose entry is gone; another that is free to work on; and nobody deleting. */
  ghost predicate Exposed(s: State, w: nat, inside: nat, key: KM.Key) {
    && s.km.At(inside).Holding? && s.km.At(inside).key == key && key !in s.km.locks
    && w < |s.workers| && w != inside && !s.km.At(w).Uses(key)
    && (forall g: nat :: s.km.At(g) != KM.Looking(key) && !s.km.At(g).Deleting?)
  }

  lemma ExposedStep(jobs: seq<Job>, s: State, a: Action, w: nat, inside: nat, key: KM.Key)
    requires Inv(jobs, s) && Exposed(s, w, inside, key)
    requires Enabled(s, a) && a.w != inside && a.spurious && s.km.At(a.w) != KM.Entering(key)
    ensures Exposed(Next(s, a), w, inside, key)
  {
    var t := Next(s, a);
    LockStep(jobs, s, a);
    assert InPlace(s, a.w);
    assert s.km.At(a.w) != KM.Looking(key);
    forall g: nat
      ensures t.km.At(g) != KM.Looking(key) && !t.km.At(g).Deleting?
    {
      assert s.km.At(g) != KM.Looking(key) && !s.km.At(g).Deleting?;
      assert g != a.w ==> t.km.At(g) == s.km.At(g);
    }
  }

  lemma WantedStep(jobs: seq<Job>, s: State, a: Action, key: KM.Key)
    requires Inv(jobs, s) && Wanted(s, key) && Enabled(s, a) && s.km.At(a.w) != KM.Entering(key)
    ensures Wanted(Next(s, a), key)
  {
    var t := Next(s, a);
    LockStep(jobs, s, a);
    assert InPlace(s, a.w);
    if g: nat :| s.km.At(g) == KM.Entering(key) {
      assert t.km.At(g) == KM.Entering(key);
    } else {
      var k :| 0 <= k < |s.queue| && s.queue[k].app == Some(key);
      if !s.workers[a.w].Fetching? {
        assert t.queue[k] == s.queue[k];
      } else if k == 0 {
        assert t.km.At(a.w) == KM.Entering(key);
      } else {
        assert t.queue[k - 1] == s.queue[k];
      }
    }
  }

  /** Somebody other than the one inside can move, and not into the lock asked for. */
  lemma SomeoneElseMoves(jobs: seq<Job>, s: State, w: nat, inside: nat, key: KM.Key) returns (a: Action)
    requires Inv(jobs, s) && Exposed(s, w, inside, key)
    requires s.km.mu == None ==> s.queue != [] && forall g: nat :: s.km.At(g) != KM.Entering(key)
    ensures Enabled(s, a) && a.w != inside && a.spurious && s.km.At(a.w) != KM.Entering(key)
  {
    assert InPlace(s, w) && KM.Placed(s.km, w) && KM.Placed(s.km, inside);
    if s.km.mu.Some? {
      a := Action(s.km.mu.value, true, true);
      assert KM.Placed(s.km, a.w) && InPlace(s, a.w);
    } else if s.km.At(w).Waiting? && s.km.At(w).m in s.km.owner {
      a := Action(s.km.owner[s.km.At(w).m], true, true);
      assert KM.Placed(s.km, a.w) && InPlace(s, a.w);
    } else {
      a := Action(w, true, true);
      if s.workers[w].Sending? {
        SendNeverBlocks(jobs, s, w);
      }
    }
  }

  /** Working through the queue brings a newcomer to the lock. */
  lemma {:induction false} NewcomerArrives(jobs: seq<Job>, s: State, w: nat, inside: nat, key: KM.Key)
    requires Inv(jobs, s) && Exposed(s, w, inside, key) && Wanted(s, key)
    ensures MayShare(s, key)
    decreases Work(s)
  {
    if v: nat :| s.km.mu == None && s.km.At(v) == KM.Entering(key) {
      NewcomerEnters(jobs, s, v, inside, key);
    } else {
      var a := SomeoneElseMoves(jobs, s, w, inside, key);
      ExposedStep(jobs, s, a, w, inside, key);
      WantedStep(jobs, s, a, key);
      InvStep(jobs, s, a);
      WorkShrinks(jobs, s, a);
      NewcomerArrives(jobs, Next(s, a), w, inside, key);
      Precede(s, a, key);
    }
  }

  /** With the entry gone and the map free, one user of the lock is inside it, or gets in. */
  lemma OldUserThenNewcomer(jobs: seq<Job>, s: State, w: nat, u: nat, key: KM.Key)
    requires Inv(jobs, s) && s.km.mu == None && key !in s.km.locks && Wanted(s, key)
    requires w < |s.workers| && s.km.At(w).Idle?
    requires (s.km.At(u).Waiting? || s.km.At(u).Holding?) && s.km.At(u).key == key
    ensures MayShare(s, key)
  {
    assert forall g: nat :: KM.Placed(s.km, g) ==> !s.km.At(g).InMap();
    if s.km.At(u).Holding? {
      NewcomerArrives(jobs, s, w, u, key);
    } else if s.km.At(u).m in s.km.owner {
      var holder := s.km.owner[s.km.At(u).m];
      assert KM.Placed(s.km, holder) && KM.Placed(s.km, u);
      NewcomerArrives(jobs, s, w, holder, key);
    } else {
      var a := Action(u, true, true);
      assert InPlace(s, u);
      var t := Next(s, a);
      InvStep(jobs, s, a);
      LockStep(jobs, s, a);
      WantedStep(jobs, s, a, key);
      assert t.km.At(u).Holding? && t.km.At(w).Idle? && t.km.locks == s.km.locks;
      assert forall g: nat :: s.km.At(g) != KM.Looking(key) && !s.km.At(g).Deleting?;
      NewcomerArrives(jobs, t, w, u, key);
      Precede(s, a, key);
    }
  }

  /** The deleting worker finishes with the lock; nothing else changes. */
  lemma DeleterLeaves(jobs: seq<Job>, s: State, w: nat, u: nat, key: KM.Key)
    requires Inv(jobs, s) && key !in s.km.locks && Wanted(s, key)
    requires s.km.At(w).Unlocking? && s.km.At(w).key == key
    requires (s.km.At(u).Waiting? || s.km.At(u).Holding?) && s.km.At(u).key == key
    ensures MayShare(s, key)
  {
    var a := Action(w, true, true);
    assert InPlace(s, w);
    var closing := Next(s, a);
    InvStep(jobs, s, a);
    LockStep(jobs, s, a);
    WantedStep(jobs, s, a, key);
    assert closing.km.At(w).Closing? && closing.km.locks == s.km.locks && closing.km.At(u) == s.km.At(u);
    assert InPlace(closing, w);
    var free := Next(closing, a);
    InvStep(jobs, closing, a);
    LockStep(jobs, closing, a);
    WantedStep(jobs, closing, a, key);
    assert free.km.At(w).Idle? && free.km.mu == None && free.km.locks == s.km.locks && free.km.At(u) == s.km.At(u);
    OldUserThenNewcomer(jobs, free, w, u, key);
    Precede(closing, a, key);
    Precede(s, a, key);
  }

  lemma DeletionEndangers(jobs: seq<Job>, s: State, a: Action, u: nat, key: KM.Key)
    requires Inv(jobs, s) && Enabled(s, a) && s.km.At(a.w).Deleting? && s.km.At(a.w).key == key
    requires s.km.At(u).Uses(key) && Wanted(s, key)
    ensures MayShare(Next(s, a), key)
  {
    var t := Next(s, a);
    assert InPlace(s, a.w) && KM.Placed(s.km, a.w) && KM.Placed(s.km, u);
    InvStep(jobs, s, a);
    LockStep(jobs, s, a);
    WantedStep(jobs, s, a, key);
    assert t.km.At(a.w).Unlocking? && t.km.locks == s.km.locks - {key} && t.km.At(u) == s.km.At(u);
    DeleterLeaves(jobs, t, a.w, u, key);
  }

  lemma UnwantedDeletionIsSafe(jobs: seq<Job>, s: State, a: Action, key: KM.Key, acts: seq<Action>)
    requires Inv(jobs, s) && KM.Registered(s.km) && Enabled(s, a)
    requires s.km.At(a.w).Deleting? && s.km.At(a.w).key == key && !Wanted(s, key) && CheckedOut(s, key)
    ensures !LeadsToSharing(Next(s, a), acts, key)
  {
    var u: nat :| s.km.At(u).Uses(key);
    var m := s.km.At(u).m;
    assert KM.Placed(s.km, a.w) && s.km.locks[key] == m;
    forall g: nat
      ensures s.km.At(g) != KM.Looking(key) && s.km.At(g) != KM.Entering(key)
      ensures s.km.At(g).Uses(key) ==> s.km.At(g).m == m
    {
      assert KM.Placed(s.km, g);
    }
    assert Alike(s, key, m);
    InvStep(jobs, s, a);
    AlikeStep(jobs, s, a, key, m);
    if Runs(Next(s, a), acts) {
      AlikeRun(jobs, Next(s, a), acts, key, m);
      AlikeIsNotShared(After(Next(s, a), acts), key, m);
    }
  }

  lemma UnusedDeletionIsSafe(jobs: seq<Job>, s: State, a: Action, key: KM.Key, acts: seq<Action>)
    requires Inv(jobs, s) && KM.Registered(s.km) && Enabled(s, a)
    requires s.km.At(a.w).Deleting? && s.km.At(a.w).key == key && !CheckedOut(s, key)
    ensures !LeadsToSharing(Next(s, a), acts, key)
  {
    InvStep(jobs, s, a);
    CleanStepRegisters(jobs, s, a);
    if Runs(Next(s, a), acts) && CleanRun(Next(s, a), acts) {
      CleanContinuation(jobs, Next(s, a), acts);
      KM.NoSharing(After(Next(s, a), acts).km, key);
    }
  }

  /** In the pool the danger of a deletion is exactly this: somebody has the lock checked out, and somebody else is
      about to ask for it or a job that will is still queued. */
  lemma DeletionIsSafeIff(jobs: seq<Job>, s: State, a: Action, key: KM.Key)
    requires Inv(jobs, s) && KM.Registered(s.km) && Enabled(s, a)
    requires s.km.At(a.w).Deleting? && s.km.At(a.w).key == key
    ensures CheckedOut(s, key) && Wanted(s, key) <==> MayShare(Next(s, a), key)
  {
    if CheckedOut(s, key) && Wanted(s, key) {
      var u: nat :| s.km.At(u).Uses(key);
      DeletionEndangers(jobs, s, a, u, key);
    } else {
      forall acts
        ensures !LeadsToSharing(Next(s, a), acts, key)
      {
        if CheckedOut(s, key) {
          UnwantedDeletionIsSafe(jobs, s, a, key, acts);
        } else {
          UnusedDeletionIsSafe(jobs, s, a, key, acts);
        }
      }
    }
  }

  // ---------------------------------------------------------------- three jobs of one application

  const FIRST := Job(1, Some(0))
  const SECOND := Job(2, Some(0))
  const THIRD := Job(3, Some(0))

  /** Where a run of three workers on three jobs of one application has got to. */
  ghost predicate At(acts: seq<Action>, s: State) {
    var start := Batch([FIRST, SECOND, THIRD], 3, KM.INIT);
    Runs(start, acts) && After(start, acts) == s
  }

  lemma Go(acts: seq<Action>, w: nat, before: State) returns (longer: seq<Action>, after: State)
    requires At(acts, before) && Enabled(before, Action(w, true, false))
    ensures At(longer, after) && after == Next(before, Action(w, true, false))
  {
    longer := acts + [Action(w, true, false)];
    after := Next(before, Action(w, true, false));
    assert longer[..|acts|] == acts;
  }

  /** One more move inside the lock, told in the lock's own terms. */
  lemma GoLock(acts: seq<Action>, w: nat, before: State) returns (longer: seq<Action>, after: State)
    requires At(acts, before) && w < |before.workers| && (before.workers[w].Locking? || before.workers[w].Releasing?)
    requires KM.Enabled(before.km, KM.Move(w, 0, false))
    ensures At(longer, after)
    ensures var km := KM.Next(before.km, KM.Move(w, 0, false));
            after == before.(km := km,
                             workers := before.workers[w := NextStage(before.workers[w], before.queue, true, km.At(w))])
  {
    longer, after := Go(acts, w, before);
  }

  /** A worker takes the next job and asks for its lock. */
  lemma GoFetch(acts: seq<Action>, w: nat, before: State) returns (longer: seq<Action>, after: State)
    requires At(acts, before) && w < |before.workers| && before.workers[w].Fetching? && before.km.At(w).Idle?
    requires before.queue != [] && before.queue[0].app == Some(0)
    ensures At(longer, after)
    ensures after == before.(queue := before.queue[1..], workers := before.workers[w := Locking(before.queue[0])],
                             km := before.km.(pc := before.km.pc[w := KM.Entering(0)]))
  {
    longer, after := Go(acts, w, before);
  }

  /** The calls a worker makes while it has the lock all succeed. */
  lemma GoCall(acts: seq<Action>, w: nat, before: State) returns (longer: seq<Action>, after: State)
    requires At(acts, before) && w < |before.workers|
    requires before.workers[w].Starting? || before.workers[w].Executing? || before.workers[w].Finishing?
    ensures At(longer, after)
    ensures after == before.(workers := before.workers[w := NextStage(before.workers[w], before.queue, true, KM.Idle)])
  {
    longer, after := Go(acts, w, before);
  }

  lemma FirstLooks() returns (acts: seq<Action>, s: State)
    ensures At(acts, s) && s == State([SECOND, THIRD], [], 3, [Locking(FIRST), Fetching, Fetching],
                       KM.State(Some(0), map[], map[], [], map[0 := KM.Looking(0)]))
  {
    acts, s := [], State([FIRST, SECOND, THIRD], [], 3, [Fetching, Fetching, Fetching], KM.INIT);
    assert seq(3, _ => Fetching) == [Fetching, Fetching, Fetching];
    acts, s := GoFetch(acts, 0, s);
    acts, s := GoLock(acts, 0, s);
  }

  lemma FirstWaits() returns (acts: seq<Action>, s: State)
    ensures At(acts, s) && s == State([SECOND, THIRD], [], 3, [Locking(FIRST), Fetching, Fetching],
                       KM.State(None, map[0 := 0], map[], [0], map[0 := KM.Waiting(0, 0)]))
  {
    acts, s := FirstLooks();
    acts, s := GoLock(acts, 0, s);
    acts, s := GoLock(acts, 0, s);
  }

  lemma FirstHolds() returns (acts: seq<Action>, s: State)
    ensures At(acts, s) && s == State([SECOND, THIRD], [], 3, [Starting(FIRST), Fetching, Fetching],
                       KM.State(None, map[0 := 0], map[0 := 0], [0], map[0 := KM.Holding(0, 0)]))
  {
    acts, s := FirstWaits();
    acts, s := GoLock(acts, 0, s);
  }

  lemma FirstIsDone() returns (acts: seq<Action>, s: State)
    ensures At(acts, s) && s == State([SECOND, THIRD], [], 3, [Releasing(FIRST, Fine), Fetching, Fetching],
                       KM.State(None, map[0 := 0], map[0 := 0], [0], map[0 := KM.Holding(0, 0)]))
  {
    acts, s := FirstHolds();
    acts, s := GoCall(acts, 0, s);
    acts, s := GoCall(acts, 0, s);
    acts, s := GoCall(acts, 0, s);
  }

  lemma SecondLooks() returns (acts: seq<Action>, s: State)
    ensures At(acts, s) && s == State([THIRD], [], 3, [Releasing(FIRST, Fine), Locking(SECOND), Fetching],
                       KM.State(Some(1), map[0 := 0], map[0 := 0], [0], map[0 := KM.Holding(0, 0), 1 := KM.Looking(0)]))
  {
    acts, s := FirstIsDone();
    acts, s := GoFetch(acts, 1, s);
    acts, s := GoLock(acts, 1, s);
  }

  lemma SecondWaits() returns (acts: seq<Action>, s: State)
    ensures At(acts, s) && s == State([THIRD], [], 3, [Releasing(FIRST, Fine), Locking(SECOND), Fetching],
                       KM.State(None, map[0 := 0], map[0 := 0], [0], map[0 := KM.Holding(0, 0), 1 := KM.Waiting(0, 0)]))
  {
    acts, s := SecondLooks();
    acts, s := GoLock(acts, 1, s);
    acts, s := GoLock(acts, 1, s);
  }

  lemma FirstReturns() returns (acts: seq<Action>, s: State)
    ensures At(acts, s) && s == State([THIRD], [], 3, [Releasing(FIRST, Fine), Locking(SECOND), Fetching],
                       KM.State(Some(0), map[0 := 0], map[], [0], map[0 := KM.Trying(0, 0), 1 := KM.Waiting(0, 0)]))
  {
    acts, s := SecondWaits();
    acts, s := GoLock(acts, 0, s);
    acts, s := GoLock(acts, 0, s);
  }

  lemma FirstDeletes() returns (acts: seq<Action>, s: State)
    ensures At(acts, s) && s == State([THIRD], [], 3, [Releasing(FIRST, Fine), Locking(SECOND), Fetching],
                       KM.State(Some(0), map[], map[0 := 0], [0], map[0 := KM.Unlocking(0, 0), 1 := KM.Waiting(0, 0)]))
  {
    acts, s := FirstReturns();
    acts, s := GoLock(acts, 0, s);
    acts, s := GoLock(acts, 0, s);
  }

  lemma FirstLeaves() returns (acts: seq<Action>, s: State)
    ensures At(acts, s) && s == State([THIRD], [], 3, [Sending(FIRST, Fine), Locking(SECOND), Fetching],
                       KM.State(None, map[], map[], [0], map[0 := KM.Idle, 1 := KM.Waiting(0, 0)]))
  {
    acts, s := FirstDeletes();
    acts, s := GoLock(acts, 0, s);
    acts, s := GoLock(acts, 0, s);
  }

  lemma SecondExecutes() returns (acts: seq<Action>, s: State)
    ensures At(acts, s) && s == State([THIRD], [], 3, [Sending(FIRST, Fine), Executing(SECOND), Fetching],
                       KM.State(None, map[], map[0 := 1], [0], map[0 := KM.Idle, 1 := KM.Holding(0, 0)]))
  {
    acts, s := FirstLeaves();
    acts, s := GoLock(acts, 1, s);
    acts, s := GoCall(acts, 1, s);
  }

  lemma ThirdLooks() returns (acts: seq<Action>, s: State)
    ensures At(acts, s) && s == State([], [], 3, [Sending(FIRST, Fine), Executing(SECOND), Locking(THIRD)],
                       KM.State(Some(2), map[], map[0 := 1], [0],
                                map[0 := KM.Idle, 1 := KM.Holding(0, 0), 2 := KM.Looking(0)]))
  {
    acts, s := SecondExecutes();
    acts, s := GoFetch(acts, 2, s);
    acts, s := GoLock(acts, 2, s);
  }

  lemma ThirdWaits() returns (acts: seq<Action>, s: State)
    ensures At(acts, s) && s == State([], [], 3, [Sending(FIRST, Fine), Executing(SECOND), Locking(THIRD)],
                       KM.State(None, map[0 := 1], map[0 := 1], [0, 0],
                                map[0 := KM.Idle, 1 := KM.Holding(0, 0), 2 := KM.Waiting(0, 1)]))
  {
    acts, s := ThirdLooks();
    acts, s := GoLock(acts, 2, s);
    acts, s := GoLock(acts, 2, s);
  }

  /** The lock of one application is collected while the second job waits at it; the third makes its own, and both
      jobs execute. */
  lemma TwoJobsOfOneApplication() returns (acts: seq<Action>)
    ensures var s := After(Batch([FIRST, SECOND, THIRD], 3, KM.INIT), acts);
            && Runs(Batch([FIRST, SECOND, THIRD], 3, KM.INIT), acts)
            && s.workers == [Sending(FIRST, Fine), Executing(SECOND), Executing(THIRD)]
  {
    var s;
    acts, s := ThirdWaits();
    acts, s := GoLock(acts, 2, s);
    acts, s := GoCall(acts, 2, s);
  }
}
