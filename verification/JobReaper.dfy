/** The worker that fails jobs whose agent went away, and the timeouts that keep it off healthy ones.

  Times are in seconds.
*/
module JobReaper {
  import opened Common
  import opened JobTable
  import opened JobProtocol
  import opened JobAgreement
  import opened JobService

  const REAP_AFTER := 30 * 60
  const SCAN_LIMIT: nat := 100

  /** The slack allowed for draining logs and reporting once a job's own time is up. */
  const GRACE := 15 * 60

  const DEFAULT_TIMEOUT := 5 * 60

  const TIMEOUTS: map<JobType, int> := map[
    AppDeploy := 15 * 60,
    AppRollback := 10 * 60,
    AppStart := 2 * 60,
    AppStop := 2 * 60,
    AppRestart := 2 * 60,
    AppHealthCheck := 1 * 60,
    AppDestroy := 5 * 60,
    MetricsCollect := 1 * 60
  ]

  /** Whatever the type, listed or not, a job that uses its time and its grace up is no older than the reaping age. */
  function JobTimeout(kind: JobType): (seconds: int)
    ensures 0 < seconds && seconds + GRACE <= REAP_AFTER
  {
    if kind in TIMEOUTS then TIMEOUTS[kind] else DEFAULT_TIMEOUT
  }

  /** In minutes: a deploy may take fifteen, a rollback ten, what only restarts containers two, and what is not listed
      five. */
  lemma MinutesAllowed(kind: JobType)
    ensures JobTimeout(kind) == 60 * match kind
                                     case AppDeploy => 15
                                     case AppRollback => 10
                                     case AppStart => 2
                                     case AppStop => 2
                                     case AppRestart => 2
                                     case AppHealthCheck => 1
                                     case AppDestroy => 5
                                     case MetricsCollect => 1
                                     case OtherType(_) => 5
  {
  }

  predicate Due(j: Job, now: int) {
    j.startedAt.Some? && now - j.startedAt.value > REAP_AFTER
  }

  /** The clock and the fate of the calls made for one listed job. */
  datatype Reply = Reply(now: int, fails: bool, written: bool)

  /** The machine steps of a pass over a snapshot, when nothing else runs meanwhile. */
  function Pass(s: Sys, snapshot: Rows, page: seq<nat>, io: nat -> Reply): Sys
    requires forall id :: id in page ==> id in snapshot
  {
    if page == [] then s else
    var n := |page| - 1;
    var t := Pass(s, snapshot, page[..n], io);
    if Due(snapshot[page[n]], io(n).now) && !io(n).fails then FinishCall(t, page[n], io(n)) else t
  }

  /** A whole Finish call: the row, and the event it publishes. */
  function FinishCall(s: Sys, id: nat, reply: Reply): Sys {
    Next(Next(s, Action(reply.now, FinishJob(id, Failed))), Action(reply.now, Deliver(0, reply.written)))
  }

  lemma FinishCallRows(s: Sys, id: nat, reply: Reply)
    ensures FinishCall(s, id, reply).rows == Finished(s.rows, id, Failed, reply.now)
  {
  }

  lemma FinishCallIgnoresClock(s: Sys, t: Sys, id: nat, reply: Reply)
    requires t == s.(clock := t.clock)
    ensures FinishCall(s, id, reply) == FinishCall(t, id, reply)
  {
  }

  lemma PassOneMore(s: Sys, snapshot: Rows, page: seq<nat>, i: nat, io: nat -> Reply)
    requires i < |page| && forall id :: id in page ==> id in snapshot
    ensures var t := Pass(s, snapshot, page[..i], io);
            Pass(s, snapshot, page[..i + 1], io)
            == if Due(snapshot[page[i]], io(i).now) && !io(i).fails then FinishCall(t, page[i], io(i)) else t
  {
    assert page[..i + 1][..i] == page[..i];
  }

  /** What a pass makes of the row it listed at one place. */
  function Reaped(row: Job, reply: Reply): Job {
    if Due(row, reply.now) && !reply.fails then row.(status := Failed, finishedAt := Some(reply.now)) else row
  }

  /** The due jobs of the page that could be reported failed, each at its own moment, and no other row changed. */
  ghost predicate ReapedRows(rows: Rows, after: Rows, page: seq<nat>, io: nat -> Reply) {
    && after.Keys == rows.Keys
    && (forall id :: id in rows && id !in page ==> after[id] == rows[id])
    && (forall i: nat :: i < |page| ==> page[i] in rows && after[page[i]] == Reaped(rows[page[i]], io(i)))
  }

  lemma OneMoreReaped(rows: Rows, mid: Rows, after: Rows, page: seq<nat>, id: nat, io: nat -> Reply)
    requires ReapedRows(rows, mid, page, io) && id !in page && id in rows && rows[id].status == Running
    requires var reply := io(|page|);
             after == if Due(rows[id], reply.now) && !reply.fails then Finished(mid, id, Failed, reply.now) else mid
    ensures ReapedRows(rows, after, page + [id], io)
  {
    assert mid[id] == rows[id];
    forall i: nat | i < |page + [id]|
      ensures (page + [id])[i] in rows && after[(page + [id])[i]] == Reaped(rows[(page + [id])[i]], io(i))
    {
      if i < |page| {
        assert page[i] != id;
      }
    }
  }

  lemma LastOfPassRows(s: Sys, page: seq<nat>, io: nat -> Reply)
    requires page != [] && forall id :: id in page ==> id in s.rows
    ensures var n := |page| - 1;
            var mid := Pass(s, s.rows, page[..n], io).rows;
            Pass(s, s.rows, page, io).rows
            == if Due(s.rows[page[n]], io(n).now) && !io(n).fails then Finished(mid, page[n], Failed, io(n).now)
               else mid
  {
    var n := |page| - 1;
    FinishCallRows(Pass(s, s.rows, page[..n], io), page[n], io(n));
  }

  /** A pass fails exactly the due jobs it listed and could report, each at its own moment, and touches no other row. */
  lemma {:induction false} PassRows(s: Sys, page: seq<nat>, io: nat -> Reply)
    requires forall i :: 0 <= i < |page| ==> page[i] in s.rows && s.rows[page[i]].status == Running
    requires forall i, j :: 0 <= i < j < |page| ==> page[i] != page[j]
    ensures ReapedRows(s.rows, Pass(s, s.rows, page, io).rows, page, io)
  {
    if page != [] {
      var n := |page| - 1;
      var front, id := page[..n], page[n];
      assert page == front + [id];
      PassRows(s, front, io);
      LastOfPassRows(s, page, io);
      OneMoreReaped(s.rows, Pass(s, s.rows, front, io).rows, Pass(s, s.rows, page, io).rows, front, id, io);
    }
  }

  lemma {:induction false} PassIdle(s: Sys, page: seq<nat>, io: nat -> Reply)
    requires forall i :: 0 <= i < |page| ==> page[i] in s.rows && !Due(s.rows[page[i]], io(i).now)
    ensures Pass(s, s.rows, page, io) == s
  {
    if page != [] {
      PassIdle(s, page[..|page| - 1], io);
    }
  }

  /** The tables hold what the machine's state says. */
  ghost predicate Mirrors(svc: JobService, t: Sys)
    reads svc.repo, svc.listener
  {
    svc.State(t.clock) == t
  }

  /** One Finish call of a pass, on the tables and on the machine. */
  method FailJob(svc: JobService, id: nat, reply: Reply, ghost t: Sys)
    requires svc.repo.Valid() && id in svc.repo.rows && Mirrors(svc, t)
    modifies svc.repo, svc.listener
    ensures svc.repo.Valid() && svc.repo.rows.Keys == old(svc.repo.rows.Keys)
    ensures Mirrors(svc, FinishCall(t, id, reply))
  {
    FinishCallIgnoresClock(t, svc.State(reply.now), id, reply);
    var _ := svc.Finish(id, Failed, reply.now, reply.written);
  }

  method Run(svc: JobService, io: nat -> Reply) returns (scanned: seq<nat>)
    requires svc.repo.Valid()
    modifies svc.repo, svc.listener
    ensures svc.repo.Valid()
    ensures IsPage(old(svc.repo.rows), RunningIds(old(svc.repo.rows)), false, SCAN_LIMIT, scanned)
    ensures Mirrors(svc, Pass(old(svc.State(0)), old(svc.repo.rows), scanned, io))
  {
    scanned := svc.repo.ListRunning(SCAN_LIMIT);
    var snapshot := svc.repo.rows;
    ghost var before := svc.State(0);
    for i := 0 to |scanned|
      invariant svc.repo.Valid() && svc.repo.rows.Keys == snapshot.Keys
      invariant Mirrors(svc, Pass(before, snapshot, scanned[..i], io))
    {
      var id := scanned[i];
      PassOneMore(before, snapshot, scanned, i, io);
      if snapshot[id].startedAt == None {
        continue;
      }
      if io(i).now - snapshot[id].startedAt.value <= REAP_AFTER {
        continue;
      }
      if io(i).fails {
        continue;
      }
      FailJob(svc, id, io(i), Pass(before, snapshot, scanned[..i], io));
    }
    assert scanned[..|scanned|] == scanned;
  }

  /** The agent has reported every execution of `id` that has used up its timeout and grace. */
  predicate Timely(rows: Rows, id: nat, now: int) {
    CanFinish(rows, id) && rows[id].startedAt.Some? ==>
      now <= rows[id].startedAt.value + JobTimeout(rows[id].kind) + GRACE
  }

  /** A pass that nothing interrupts leaves every job alone, row and deployment, when all agents are timely. */
  lemma UninterruptedPassSparesTimelyJobs(s: Sys, page: seq<nat>, io: nat -> Reply)
    requires forall i :: 0 <= i < |page| ==>
               page[i] in s.rows && s.rows[page[i]].status == Running && Timely(s.rows, page[i], io(i).now)
    ensures Pass(s, s.rows, page, io) == s
  {
    forall i | 0 <= i < |page|
      ensures !Due(s.rows[page[i]], io(i).now)
    {
      var _ := JobTimeout(s.rows[page[i]].kind);
    }
    PassIdle(s, page, io);
  }

  function RunningIds(rows: Rows): set<nat> {
    set id | id in rows && rows[id].status == Running
  }

  /** Above the limit the jobs queued longest ago are the ones a pass never looks at. */
  lemma FullPageSkipsTheOldest(s: Sys, page: seq<nat>, io: nat -> Reply) returns (skipped: nat)
    requires IsPage(s.rows, RunningIds(s.rows), false, SCAN_LIMIT, page)
    requires |RunningIds(s.rows)| > SCAN_LIMIT
    ensures skipped in s.rows && CanFinish(s.rows, skipped)
    ensures forall i :: 0 <= i < |page| ==> s.rows[skipped].queuedAt <= s.rows[page[i]].queuedAt
    ensures var t := Pass(s, s.rows, page, io); skipped in t.rows && t.rows[skipped] == s.rows[skipped]
  {
    PageIsCompleteUnlessFull(s.rows, RunningIds(s.rows), false, SCAN_LIMIT, page);
    PassRows(s, page, io);
    skipped :| skipped in RunningIds(s.rows) && skipped !in page;
    forall i | 0 <= i < |page|
      ensures s.rows[skipped].queuedAt <= s.rows[page[i]].queuedAt
    {
      assert SortKey(s.rows[page[i]], false) >= SortKey(s.rows[skipped], false);
    }
  }

  // ---------------------------------------------------------------- passes that other calls interrupt

  /** A row's execution is known by its start stamp: one that a requeue ends never comes back, and the stamps of later
      ones are no earlier than the clock they began at. */
  ghost predicate StillThat(row: Job, startedAt: Option<int>, since: int) {
    if row.startedAt == startedAt then Rank(row.status) >= 1
    else row.startedAt == None || row.startedAt.value >= since
  }

  lemma {:induction false} ClockAdvances(s: Sys, acts: seq<Action>)
    requires Runs(s, acts)
    ensures After(s, acts).clock >= s.clock
  {
    if acts != [] {
      ClockAdvances(s, acts[..|acts| - 1]);
    }
  }

  lemma ExecutionStep(s: Sys, a: Action, id: nat, startedAt: Option<int>, since: int)
    requires Enabled(s, a) && since <= s.clock && id in s.rows
    requires startedAt.Some? && startedAt.value < since && StillThat(s.rows[id], startedAt, since)
    ensures var t := Next(s, a);
            && id in t.rows && t.rows[id].kind == s.rows[id].kind && StillThat(t.rows[id], startedAt, since)
            && (t.rows[id].startedAt == startedAt ==> s.rows[id].startedAt == startedAt)
            && (t.rows[id].startedAt == startedAt ==>
                  Rank(t.rows[id].status) >= Rank(s.rows[id].status)
                  && (a.step.FinishJob? && a.step.id == id ==> Rank(t.rows[id].status) == 2))
  {
  }

  predicate Reported(acts: seq<Action>, id: nat) {
    exists k :: 0 <= k < |acts| && acts[k].step.FinishJob? && acts[k].step.id == id
  }

  /** An execution older than the clock, followed through any run: it is over as soon as anybody has reported it. */
  lemma {:induction false} ExecutionEnds(s: Sys, acts: seq<Action>, id: nat)
    requires CanFinish(s.rows, id) && s.rows[id].startedAt.Some? && s.rows[id].startedAt.value < s.clock
    requires Runs(s, acts)
    ensures var t := After(s, acts);
            && id in t.rows && t.rows[id].kind == s.rows[id].kind
            && StillThat(t.rows[id], s.rows[id].startedAt, s.clock)
            && (t.rows[id].startedAt == s.rows[id].startedAt && Reported(acts, id) ==> Rank(t.rows[id].status) == 2)
  {
    if acts != [] {
      var front, a := acts[..|acts| - 1], acts[|acts| - 1];
      ExecutionEnds(s, front, id);
      ClockAdvances(s, front);
      ExecutionStep(After(s, front), a, id, s.rows[id].startedAt, s.clock);
      if Reported(acts, id) && !(a.step.FinishJob? && a.step.id == id) {
        var k :| 0 <= k < |acts| && acts[k].step.FinishJob? && acts[k].step.id == id;
        assert front[k] == acts[k];
      }
    }
  }

  /** Other calls may run between the listing (in `s`), the age check and the Finish call (at `now`). However they
      interleave, the call fails a timely job exactly when the job is in another execution than the one listed: a start
      stamp the UPDATE could compare. */
  lemma ReapsTimelyJobIff(s: Sys, acts: seq<Action>, id: nat, check: int, now: int)
    requires RowsInv(s) && CanFinish(s.rows, id) && Due(s.rows[id], check) && check <= now
    requires Runs(s, acts) && Timely(After(s, acts).rows, id, now)
    ensures var t := After(s, acts);
            && id in t.rows
            && (Finished(t.rows, id, Failed, now) != t.rows
                <==> t.rows[id].status == Running && t.rows[id].startedAt != s.rows[id].startedAt)
  {
    var t := After(s, acts);
    KindStays(s, acts, id);
    var _ := JobTimeout(s.rows[id].kind);
    RowsStayShaped(s, acts);
    if CanFinish(t.rows, id) {
      assert RowShape(t.rows[id]);
      assert Finished(t.rows, id, Failed, now)[id] != t.rows[id];
    }
  }

  lemma {:induction false} KindStays(s: Sys, acts: seq<Action>, id: nat)
    requires Runs(s, acts) && id in s.rows
    ensures id in After(s, acts).rows && After(s, acts).rows[id].kind == s.rows[id].kind
  {
    if acts != [] {
      KindStays(s, acts[..|acts| - 1], id);
    }
  }

  lemma {:induction false} RowsStayShaped(s: Sys, acts: seq<Action>)
    requires Runs(s, acts) && RowsInv(s)
    ensures RowsInv(After(s, acts))
  {
    if acts != [] {
      RowsStayShaped(s, acts[..|acts| - 1]);
      RowsStep(After(s, acts[..|acts| - 1]), acts[|acts| - 1]);
    }
  }

  lemma RestartedBetween(failed: seq<Action>) returns (acts: seq<Action>)
    requires Runs(INIT, failed) && FaithfulRun(INIT, failed)
    requires Shows(failed, Job(1, Some(3), Some(5), AppDeploy, "", Failed, 2, Some(4), Some(1800)), DeployFailed, [],
                   1801)
    ensures acts == failed + [Action(1802, RetryJob(7, "")), Action(1804, StartJob(7))]
    ensures Runs(INIT, acts) && FaithfulRun(INIT, acts)
    ensures Shows(acts, Job(1, Some(3), Some(5), AppDeploy, "", Running, 1802, Some(1804), None), DeployFailed,
                  [JobStarted(Some(5), Some(3), AppDeploy)], 1804)
  {
    RequeueShows(After(INIT, failed), After(INIT, failed).rows[7], 1802);
    acts := Take(failed, Action(1802, RetryJob(7, "")));
    StartShows(After(INIT, acts), After(INIT, acts).rows[7], 1804);
    acts := Take(acts, Action(1804, StartJob(7)));
  }

  /** A job failed by its agent, requeued and started again between the listing and the Finish call: every guard is hit,
      every agent is timely, and the pass fails an execution that is one second old. */
  lemma RestartedJobIsReaped() returns (listed: seq<Action>, meanwhile: seq<Action>, now: int)
    ensures Runs(INIT, listed + meanwhile) && FaithfulRun(INIT, listed + meanwhile)
    ensures CanFinish(After(INIT, listed).rows, 7) && Due(After(INIT, listed).rows[7], now)
    ensures After(INIT, listed).clock < After(INIT, listed + meanwhile).clock < now
    ensures var s := After(INIT, listed + meanwhile);
            && Timely(s.rows, 7, now) && CanFinish(s.rows, 7) && s.rows[7].startedAt == Some(now - 1)
            && Finished(s.rows, 7, Failed, now)[7].status == Failed
  {
    var failed;
    listed, failed := FailedDeployment(1800);
    now := 1805;
    meanwhile := [Action(1800, FinishJob(7, Failed)), Action(1801, Deliver(0, true)), Action(1802, RetryJob(7, "")),
                  Action(1804, StartJob(7))];
    var acts := RestartedBetween(failed);
    assert acts == listed + meanwhile;
  }

  /** Among the calls of a run are those a pass makes for the due jobs it listed. */
  predicate Carries(acts: seq<Action>, rows: Rows, page: seq<nat>, io: nat -> Reply)
    requires forall i :: 0 <= i < |page| ==> page[i] in rows
  {
    forall i: nat :: i < |page| && Due(rows[page[i]], io(i).now) && !io(i).fails ==>
      Action(io(i).now, FinishJob(page[i], Failed)) in acts
  }

  /** With at most a hundred running jobs and no failing call, however agents, retries and other passes interleave with
      it, no execution that was overdue at the scan is still running after a pass. */
  lemma InterruptedPassEndsOverdueExecutions(s: Sys, page: seq<nat>, io: nat -> Reply, acts: seq<Action>, id: nat)
    requires RowsInv(s) && Runs(s, acts)
    requires IsPage(s.rows, RunningIds(s.rows), false, SCAN_LIMIT, page) && |RunningIds(s.rows)| <= SCAN_LIMIT
    requires (forall i: nat :: i < |page| ==> s.clock <= io(i).now && !io(i).fails) && Carries(acts, s.rows, page, io)
    requires CanFinish(s.rows, id) && Due(s.rows[id], s.clock)
    ensures var t := After(s, acts);
            id in t.rows && !(t.rows[id].status == Running && t.rows[id].startedAt == s.rows[id].startedAt)
  {
    PageIsCompleteUnlessFull(s.rows, RunningIds(s.rows), false, SCAN_LIMIT, page);
    assert id in RunningIds(s.rows);
    var i: nat :| i < |page| && page[i] == id;
    var call := Action(io(i).now, FinishJob(id, Failed));
    assert call in acts;
    var k :| 0 <= k < |acts| && acts[k] == call;
    assert Reported(acts, id);
    ExecutionEnds(s, acts, id);
  }

  lemma PunctualReport(listed: seq<Action>) returns (acts: seq<Action>)
    requires Runs(INIT, listed) && FaithfulRun(INIT, listed)
    requires Shows(listed, Job(1, Some(3), Some(5), AppDeploy, "", Running, 2, Some(4), None), Deploying, [], 5)
    ensures acts == listed + [Action(1804, FinishJob(7, Success)), Action(1804, Deliver(0, true))] && Runs(INIT, acts)
    ensures Shows(acts, Job(1, Some(3), Some(5), AppDeploy, "", Success, 2, Some(4), Some(1804)), DeploySuccess, [],
                  1804)
  {
    FinishShows(After(INIT, listed), After(INIT, listed).rows[7], Success, 1804);
    DeliveryShows(Deploying, JobFinished(Some(5), Some(3), AppDeploy, Success));
    acts := Take(listed, Action(1804, FinishJob(7, Success)));
    acts := Announce(acts, JobFinished(Some(5), Some(3), AppDeploy, Success), 1804);
  }

  lemma LateCheck(s: Sys, row: Job, check: int)
    requires s.rows == map[7 := row] && ForDeployment5(row) && row.status == Success
    requires s.deps == map[5 := DeploySuccess] && s.pending == []
    ensures var t := FinishCall(s, 7, Reply(check, false, true));
            t.rows == s.rows && 5 in t.deps && t.deps[5] == DeployFailed
  {
    var told := JobFinished(Some(5), Some(3), AppDeploy, Failed);
    FinishShows(s, row, Failed, check);
    DeliveryShows(DeploySuccess, told);
    assert [told][0] == told;
  }

  /** A listing just before a punctual report and a check just after it leave the row alone and announce its successful
      deployment as failed. */
  lemma StraddlingPassFlipsDeployment() returns (listed: seq<Action>, report: seq<Action>, check: int)
    ensures Runs(INIT, listed + report)
    ensures CanFinish(After(INIT, listed).rows, 7) && Due(After(INIT, listed).rows[7], check)
    ensures Timely(After(INIT, listed).rows, 7, After(INIT, listed).clock)
    ensures After(INIT, listed).clock < After(INIT, listed + report).clock < check
    ensures var s := After(INIT, listed + report);
            && s.pending == [] && 7 in s.rows && s.rows[7].status == Success
            && 5 in s.deps && s.deps[5] == DeploySuccess
            && s.rows[7].startedAt == Some(4) && s.rows[7].finishedAt == Some(1804)
            && 1804 <= 4 + JobTimeout(s.rows[7].kind) + GRACE
            && var t := FinishCall(s, 7, Reply(check, false, true));
               t.rows == s.rows && 5 in t.deps && t.deps[5] == DeployFailed
  {
    listed := StartedDeployment();
    report := [Action(1804, FinishJob(7, Success)), Action(1804, Deliver(0, true))];
    check := 1805;
    var acts := PunctualReport(listed);
    LateCheck(After(INIT, acts), After(INIT, acts).rows[7], check);
  }
}
