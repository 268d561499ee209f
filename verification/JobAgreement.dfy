/** When job rows and the deployments' copy of their status agree: the exact condition, and runs that miss it. */
module JobAgreement {
  import opened Common
  import opened JobTable
  import opened JobProtocol

  /** What the deployments page may show next to a job row. */
  predicate Agree(job: JobStatus, dep: DeploymentStatus) {
    match job
    case Queued => dep == Pending || dep == DeployFailed
    case Running => dep == Deploying
    case Success => dep == DeploySuccess
    case Failed => dep == DeployFailed
    case Expired => false
  }

  // ---------------------------------------------------------------- when the two copies agree

  /** The call hits its guard, and events about one deployment reach the listener in the order they arose. */
  predicate Faithful(s: Sys, a: Action) {
    match a.step
    case StartJob(id) => id in s.rows && Tracked(s.rows[id]) ==> CanStart(s.rows, id)
    case FinishJob(id, _) => id in s.rows && Tracked(s.rows[id]) ==> CanFinish(s.rows, id)
    case RetryJob(id, _) =>
      id in s.rows && Tracked(s.rows[id]) ==> s.rows[id].status == Failed || s.rows[id].status == Expired
    case Deliver(i, written) => written && Foremost(s.pending, i)
    case _ => true
  }

  predicate Foremost(pending: seq<Event>, i: nat) {
    i < |pending| && forall j :: 0 <= j < i ==> pending[j].deployment != pending[i].deployment
  }

  predicate FaithfulRun(s: Sys, acts: seq<Action>) {
    acts == [] || (FaithfulRun(s, acts[..|acts| - 1]) && Faithful(After(s, acts[..|acts| - 1]), acts[|acts| - 1]))
  }

  /** The row of a tracked job and what its deployment will be once everything pending is delivered. */
  ghost predicate AgreesAt(s: Sys, id: nat)
    requires id in s.rows && s.rows[id].deployment.Some? && s.rows[id].deployment.value in s.deps
  {
    var d := s.rows[id].deployment.value;
    Agree(s.rows[id].status, Fold(s.deps[d], s.pending, d))
  }

  ghost predicate AgreeInv(s: Sys) {
    && FoldInv(s)
    && (forall a, b :: a in s.rows && b in s.rows && a != b && s.rows[a].deployment.Some? ==>
          s.rows[a].deployment != s.rows[b].deployment)
    && (forall id :: id in s.rows && Tracked(s.rows[id]) ==> AgreesAt(s, id))
  }

  lemma {:induction false} FoldAppend(start: DeploymentStatus, a: seq<Event>, b: seq<Event>, d: nat)
    ensures Fold(start, a + b, d) == Fold(Fold(start, a, d), b, d)
  {
    if b == [] {
      assert a + b == a;
    } else {
      var last := b[|b| - 1];
      FoldAppend(start, a, b[..|b| - 1], d);
      assert a + b == (a + b[..|b| - 1]) + [last];
      FoldSnoc(start, a + b[..|b| - 1], last, d);
    }
  }

  lemma FoldOne(start: DeploymentStatus, e: Event, d: nat)
    ensures Fold(start, [e], d) == if Concerns(e, d) then Projected(e) else start
  {
    FoldSnoc(start, [], e, d);
    assert [] + [e] == [e];
  }

  /** The outlook with one event singled out, and without it. */
  lemma FoldAround(start: DeploymentStatus, pending: seq<Event>, i: nat, d: nat)
    requires i < |pending|
    ensures var before := Fold(start, pending[..i], d);
            Fold(start, pending, d)
            == Fold(if Concerns(pending[i], d) then Projected(pending[i]) else before, pending[i + 1..], d)
    ensures Fold(start, Without(pending, i), d) == Fold(Fold(start, pending[..i], d), pending[i + 1..], d)
  {
    assert pending == pending[..i] + ([pending[i]] + pending[i + 1..]);
    FoldAppend(start, pending[..i], [pending[i]] + pending[i + 1..], d);
    FoldAppend(Fold(start, pending[..i], d), [pending[i]], pending[i + 1..], d);
    FoldOne(Fold(start, pending[..i], d), pending[i], d);
    FoldAppend(start, pending[..i], pending[i + 1..], d);
  }

  /** Delivering the foremost event about `d` leaves the outlook for `d` unchanged. */
  lemma FoldDeliver(deps: Deployments, pending: seq<Event>, i: nat, d: nat)
    requires d in deps && Foremost(pending, i)
    ensures Fold(Handle(deps, pending[i])[d], Without(pending, i), d) == Fold(deps[d], pending, d)
  {
    var now := Handle(deps, pending[i])[d];
    FoldAround(deps[d], pending, i, d);
    FoldAround(now, pending, i, d);
    if Concerns(pending[i], d) {
      FoldUnconcerned(now, pending[..i], d);
    }
  }

  // ---------------------------------------------------------------- the exact condition

  /** A later event on its way concerns the deployment too, and will have the last word. */
  predicate Overtaken(pending: seq<Event>, i: nat, d: nat) {
    exists j :: i < j < |pending| && Concerns(pending[j], d)
  }

  lemma {:induction false} FoldConcerned(a: DeploymentStatus, b: DeploymentStatus, events: seq<Event>, d: nat)
    requires exists j :: 0 <= j < |events| && Concerns(events[j], d)
    ensures Fold(a, events, d) == Fold(b, events, d)
  {
    var n := |events| - 1;
    if !Concerns(events[n], d) {
      FoldConcerned(a, b, events[..n], d);
    }
  }

  function StatusAfter(deps: Deployments, e: Event, written: bool, d: nat): DeploymentStatus
    requires d in deps
  {
    if written && Concerns(e, d) then Projected(e) else deps[d]
  }

  /** What any delivery, in or out of order, written or lost, does to the outlook of a deployment its event concerns. */
  lemma DeliveryOutlook(deps: Deployments, pending: seq<Event>, i: nat, written: bool, d: nat)
    requires i < |pending| && d in deps
    ensures Fold(StatusAfter(deps, pending[i], written, d), Without(pending, i), d)
            == if !Concerns(pending[i], d) || Overtaken(pending, i, d) then Fold(deps[d], pending, d)
               else Fold(StatusAfter(deps, pending[i], written, d), pending[..i], d)
  {
    var start, rest := StatusAfter(deps, pending[i], written, d), pending[i + 1..];
    FoldAround(deps[d], pending, i, d);
    FoldAround(start, pending, i, d);
    if Overtaken(pending, i, d) {
      var j :| i < j < |pending| && Concerns(pending[j], d);
      assert rest[j - i - 1] == pending[j];
      FoldConcerned(Fold(start, pending[..i], d),
                    if Concerns(pending[i], d) then Projected(pending[i]) else Fold(deps[d], pending[..i], d), rest, d);
    } else {
      assert forall k :: 0 <= k < |rest| ==> rest[k] == pending[i + 1 + k];
      FoldUnconcerned(Fold(start, pending[..i], d), rest, d);
      if !Concerns(pending[i], d) {
        FoldUnconcerned(Fold(deps[d], pending[..i], d), rest, d);
      }
    }
  }

  /** A report repeats what an ended or requeued row already shows its deployment. */
  predicate Repeats(row: JobStatus, reported: JobStatus) {
    if reported == Failed then row != Success else row == Success
  }

  /** What a step must be for one row and its deployment to keep agreeing. */
  predicate HarmlessFor(s: Sys, a: Action, id: nat)
    requires id in s.rows && Tracked(s.rows[id])
  {
    var row, d := s.rows[id], s.rows[id].deployment.value;
    match a.step
    case StartJob(j) => j == id ==> row.status == Queued || row.status == Running
    case FinishJob(j, status) => j == id ==> row.status == Running || Repeats(row.status, status)
    case RetryJob(j, _) => j == id ==> row.status == Queued || row.status == Failed
    case Deliver(i, written) =>
      i < |s.pending| && Concerns(s.pending[i], d) && !Overtaken(s.pending, i, d) && d in s.deps ==>
        Agree(row.status, Fold(StatusAfter(s.deps, s.pending[i], written, d), s.pending[..i], d))
    case _ => true
  }

  predicate Harmless(s: Sys, a: Action) {
    forall id :: id in s.rows && Tracked(s.rows[id]) ==> HarmlessFor(s, a, id)
  }

  predicate HarmlessRun(s: Sys, acts: seq<Action>) {
    acts == [] || (HarmlessRun(s, acts[..|acts| - 1]) && Harmless(After(s, acts[..|acts| - 1]), acts[|acts| - 1]))
  }

  lemma DeliveryAgreesIff(s: Sys, a: Action, id: nat)
    requires AgreeInv(s) && Enabled(s, a) && a.step.Deliver?
    requires id in s.rows && Tracked(s.rows[id]) && s.rows[id].deployment.value in Next(s, a).deps
    ensures AgreesAt(Next(s, a), id) <==> HarmlessFor(s, a, id)
  {
    var d := s.rows[id].deployment.value;
    DeliveryOutlook(s.deps, s.pending, a.step.i, a.step.written, d);
    assert Next(s, a).deps[d] == StatusAfter(s.deps, s.pending[a.step.i], a.step.written, d);
  }

  lemma CallAgreesIff(s: Sys, a: Action, id: nat)
    requires AgreeInv(s) && Enabled(s, a) && !a.step.Deliver?
    requires id in s.rows && Tracked(s.rows[id]) && s.rows[id].deployment.value in Next(s, a).deps
    ensures id in Next(s, a).rows && Tracked(Next(s, a).rows[id])
    ensures AgreesAt(Next(s, a), id) <==> HarmlessFor(s, a, id)
  {
    var t := Next(s, a);
    var d := s.rows[id].deployment.value;
    assert AgreesAt(s, id);
    if t.pending != s.pending {
      FoldSnoc(t.deps[d], s.pending, t.pending[|s.pending|], d);
    }
  }

  lemma NewRowAgrees(s: Sys, a: Action, id: nat)
    requires AgreeInv(s) && Enabled(s, a) && id !in s.rows
    requires var t := Next(s, a); id in t.rows && Tracked(t.rows[id]) && t.rows[id].deployment.value in t.deps
    ensures AgreesAt(Next(s, a), id)
  {
    var t := Next(s, a);
    var d := t.rows[id].deployment.value;
    FoldSnoc(t.deps[d], s.pending, t.pending[|s.pending|], d);
  }

  lemma OneJobEach(s: Sys, a: Action)
    requires AgreeInv(s) && Enabled(s, a)
    ensures var t := Next(s, a);
            forall x, y :: x in t.rows && y in t.rows && x != y && t.rows[x].deployment.Some? ==>
              t.rows[x].deployment != t.rows[y].deployment
  {
  }

  lemma RowsStayTracked(s: Sys, a: Action, id: nat)
    requires Enabled(s, a) && id in s.rows && Tracked(s.rows[id])
    ensures id in Next(s, a).rows && Tracked(Next(s, a).rows[id])
  {
  }

  /** One step from agreement: exactly when agreement is kept. */
  lemma AgreeStepIff(s: Sys, a: Action)
    requires AgreeInv(s) && Enabled(s, a)
    ensures AgreeInv(Next(s, a)) <==> Harmless(s, a)
  {
    var t := Next(s, a);
    FoldStep(s, a);
    OneJobEach(s, a);
    forall id | id in t.rows && Tracked(t.rows[id])
      ensures id in s.rows ==> Tracked(s.rows[id])
      ensures AgreesAt(t, id) <==> (id in s.rows ==> HarmlessFor(s, a, id))
    {
      if id !in s.rows {
        NewRowAgrees(s, a, id);
      } else if a.step.Deliver? {
        DeliveryAgreesIff(s, a, id);
      } else {
        CallAgreesIff(s, a, id);
      }
    }
    forall id | id in s.rows && Tracked(s.rows[id])
      ensures id in t.rows && Tracked(t.rows[id])
    {
      RowsStayTracked(s, a, id);
    }
  }

  ghost predicate AgreesThroughout(acts: seq<Action>) {
    AgreeInv(After(INIT, acts)) && (acts != [] ==> AgreesThroughout(acts[..|acts| - 1]))
  }

  /** Rows and deployments agree, events on their way accounted for, at every moment of a run exactly when each of its
      steps is harmless: late or lost deliveries, repeated reports and repeated requeues included. */
  lemma {:induction false} AgreementIsKeptIff(acts: seq<Action>)
    requires Runs(INIT, acts)
    ensures AgreesThroughout(acts) <==> HarmlessRun(INIT, acts)
  {
    if acts != [] {
      var front := acts[..|acts| - 1];
      AgreementIsKeptIff(front);
      if AgreesThroughout(front) {
        assert AgreeInv(After(INIT, front));
        AgreeStepIff(After(INIT, front), acts[|acts| - 1]);
      }
    }
  }

  lemma FaithfulIsHarmlessFor(s: Sys, a: Action, id: nat)
    requires AgreeInv(s) && Enabled(s, a) && Faithful(s, a) && id in s.rows && Tracked(s.rows[id])
    ensures HarmlessFor(s, a, id)
  {
    assert AgreesAt(s, id);
    if a.step.Deliver? {
      var d := s.rows[id].deployment.value;
      DeliveryOutlook(s.deps, s.pending, a.step.i, a.step.written, d);
      FoldDeliver(s.deps, s.pending, a.step.i, d);
      assert Handle(s.deps, s.pending[a.step.i])[d] == StatusAfter(s.deps, s.pending[a.step.i], true, d);
    }
  }

  /** Runs that hit every guard and keep every deployment's events in order, and written, are among them. */
  lemma {:induction false} FaithfulRunsAreHarmless(acts: seq<Action>)
    requires Runs(INIT, acts) && FaithfulRun(INIT, acts)
    ensures HarmlessRun(INIT, acts) && AgreeInv(After(INIT, acts))
  {
    if acts != [] {
      var front, a := acts[..|acts| - 1], acts[|acts| - 1];
      FaithfulRunsAreHarmless(front);
      var s := After(INIT, front);
      forall id | id in s.rows && Tracked(s.rows[id])
        ensures HarmlessFor(s, a, id)
      {
        FaithfulIsHarmlessFor(s, a, id);
      }
      AgreeStepIff(s, a);
    }
  }

  /** Once nothing about a deployment is still on its way, its status matches its job row. */
  lemma CopiesAgree(acts: seq<Action>, id: nat)
    requires Runs(INIT, acts) && HarmlessRun(INIT, acts)
    requires id in After(INIT, acts).rows
    requires var row := After(INIT, acts).rows[id];
             row.deployment.Some? && row.app.Some? && (row.kind == AppDeploy || row.kind == AppRollback)
    requires var s := After(INIT, acts);
             forall e :: e in s.pending && e.deployment == s.rows[id].deployment ==>
               e.app == None || (e.kind != AppDeploy && e.kind != AppRollback)
    ensures var s := After(INIT, acts);
            var d := s.rows[id].deployment.value;
            && d in s.deps
            && (s.rows[id].status == Queued ==> s.deps[d] == Pending || s.deps[d] == DeployFailed)
            && (s.rows[id].status == Running ==> s.deps[d] == Deploying)
            && (s.rows[id].status == Success ==> s.deps[d] == DeploySuccess)
            && (s.rows[id].status == Failed ==> s.deps[d] == DeployFailed)
            && s.rows[id].status != Expired
  {
    AgreementIsKeptIff(acts);
    var s := After(INIT, acts);
    assert Tracked(s.rows[id]);
    assert forall i :: 0 <= i < |s.pending| ==> s.pending[i] in s.pending;
    assert AgreeInv(s) && AgreesAt(s, id);
    var d := s.rows[id].deployment.value;
    FoldUnconcerned(s.deps[d], s.pending, d);
  }

  /** One uninterrupted Finish call on a row that agreed with its deployment: exactly when it still does. */
  lemma FinishCallAgreesIff(rows: Rows, deps: Deployments, id: nat, status: JobStatus, now: int)
    requires id in rows && Tracked(rows[id]) && rows[id].deployment.value in deps
    requires Agree(rows[id].status, deps[rows[id].deployment.value])
    ensures var e := JobFinished(rows[id].deployment, rows[id].app, rows[id].kind, status);
            Agree(Finished(rows, id, status, now)[id].status, Handle(deps, e)[rows[id].deployment.value])
            <==> if CanFinish(rows, id) then status == Success || status == Failed
                 else if status == Failed then rows[id].status != Success
                 else rows[id].status == Success
  {
    assert Concerns(JobFinished(rows[id].deployment, rows[id].app, rows[id].kind, status), rows[id].deployment.value);
  }

  /** The same for Start: a second start of a running job is harmless, any other late start is not. */
  lemma StartCallAgreesIff(rows: Rows, deps: Deployments, id: nat, now: int)
    requires id in rows && Tracked(rows[id]) && rows[id].deployment.value in deps
    requires Agree(rows[id].status, deps[rows[id].deployment.value])
    ensures var e := JobStarted(rows[id].deployment, rows[id].app, rows[id].kind);
            Agree(Started(rows, id, now)[id].status, Handle(deps, e)[rows[id].deployment.value])
            <==> CanStart(rows, id) || CanFinish(rows, id)
  {
    assert Concerns(JobStarted(rows[id].deployment, rows[id].app, rows[id].kind), rows[id].deployment.value);
  }

  /** And for a requeue, which publishes nothing and has no guard of its own. */
  lemma RetryCallAgreesIff(rows: Rows, deps: Deployments, id: nat, payload: string, now: int)
    requires id in rows && Tracked(rows[id]) && rows[id].deployment.value in deps
    requires Agree(rows[id].status, deps[rows[id].deployment.value])
    ensures Agree(Requeued(rows, id, payload, now)[id].status, deps[rows[id].deployment.value])
            <==> rows[id].status == Queued || rows[id].status == Failed
  {
  }

  /** The retry endpoint reads the row in one statement and requeues it in a later one. What it read does not matter;
      whatever ran in between, the requeue keeps agreement exactly when the row is failed or queued by then. */
  lemma RetryAfterReadAgreesIff(read: Sys, meanwhile: seq<Action>, a: Action)
    requires Runs(read, meanwhile) && a.step.RetryJob? && Enabled(After(read, meanwhile), a)
    requires AgreeInv(After(read, meanwhile))
    requires a.step.id in read.rows && Tracked(read.rows[a.step.id])
    requires read.rows[a.step.id].status == Failed || read.rows[a.step.id].status == Expired
    ensures var s := After(read, meanwhile);
            a.step.id in s.rows &&
            (AgreeInv(Next(s, a)) <==> s.rows[a.step.id].status == Queued || s.rows[a.step.id].status == Failed)
  {
    var s := After(read, meanwhile);
    TrackedForGood(read, meanwhile, a.step.id);
    AgreeStepIff(s, a);
    assert HarmlessFor(s, a, a.step.id) <==> s.rows[a.step.id].status == Queued || s.rows[a.step.id].status == Failed;
    assert forall id :: id in s.rows && Tracked(s.rows[id]) && id != a.step.id ==> HarmlessFor(s, a, id);
  }

  lemma {:induction false} TrackedForGood(s: Sys, acts: seq<Action>, id: nat)
    requires Runs(s, acts) && id in s.rows && Tracked(s.rows[id])
    ensures id in After(s, acts).rows && Tracked(After(s, acts).rows[id])
  {
    if acts != [] {
      TrackedForGood(s, acts[..|acts| - 1], id);
      RowsStayTracked(After(s, acts[..|acts| - 1]), acts[|acts| - 1], id);
    }
  }

  const DEPLOY_JOB := CreateJob(7, 1, Some(3), Some(5), AppDeploy, "")

  lemma Take(acts: seq<Action>, a: Action) returns (longer: seq<Action>)
    requires Runs(INIT, acts) && FaithfulRun(INIT, acts)
    requires Enabled(After(INIT, acts), a) && Faithful(After(INIT, acts), a)
    ensures longer == acts + [a] && Runs(INIT, longer) && FaithfulRun(INIT, longer)
    ensures After(INIT, longer) == Next(After(INIT, acts), a)
  {
    longer := acts + [a];
    Extend(INIT, acts, a);
    assert longer[..|acts|] == acts;
  }

  /** The one event that waits is delivered and written. */
  lemma Announce(acts: seq<Action>, e: Event, at: int) returns (longer: seq<Action>)
    requires Runs(INIT, acts) && FaithfulRun(INIT, acts)
    requires After(INIT, acts).pending == [e] && at >= After(INIT, acts).clock
    ensures longer == acts + [Action(at, Deliver(0, true))] && Runs(INIT, longer) && FaithfulRun(INIT, longer)
    ensures var s := After(INIT, acts);
            After(INIT, longer) == Sys(s.rows, Handle(s.deps, e), [], s.applied + [e], at)
  {
    longer := Take(acts, Action(at, Deliver(0, true)));
    assert Without([e], 0) == [];
  }

  lemma CreatedDeployment() returns (acts: seq<Action>)
    ensures Runs(INIT, acts) && FaithfulRun(INIT, acts)
    ensures After(INIT, acts) ==
            Sys(map[7 := Job(1, Some(3), Some(5), AppDeploy, "", Queued, 2, None, None)], map[5 := Pending], [],
                [JobCreated(Some(5), Some(3), AppDeploy)], 3)
  {
    acts := Take([], Action(1, NewDeployment(5)));
    assert After(INIT, acts) == Sys(map[], map[5 := Pending], [], [], 1);
    acts := Take(acts, Action(2, DEPLOY_JOB));
    acts := Announce(acts, JobCreated(Some(5), Some(3), AppDeploy), 3);
  }

  /** Steps over tables that have only job 7, for deployment 5. */
  predicate ForDeployment5(row: Job) {
    row.app == Some(3) && row.deployment == Some(5) && row.kind == AppDeploy
  }

  lemma StartShows(s: Sys, row: Job, at: int)
    requires s.rows == map[7 := row] && ForDeployment5(row) && row.status == Queued
    ensures Next(s, Action(at, StartJob(7)))
            == Sys(map[7 := row.(status := Running, startedAt := Some(at))], s.deps,
                   s.pending + [JobStarted(Some(5), Some(3), AppDeploy)], s.applied, at)
  {
  }

  lemma FinishShows(s: Sys, row: Job, status: JobStatus, at: int)
    requires s.rows == map[7 := row] && ForDeployment5(row)
    ensures Next(s, Action(at, FinishJob(7, status)))
            == Sys(map[7 := if row.status == Running then row.(status := status, finishedAt := Some(at)) else row],
                   s.deps,
                   s.pending + [JobFinished(Some(5), Some(3), AppDeploy, status)], s.applied, at)
  {
  }

  lemma RequeueShows(s: Sys, row: Job, at: int)
    requires s.rows == map[7 := row]
    ensures Next(s, Action(at, RetryJob(7, "")))
            == Sys(map[7 := row.(payload := "", status := Queued,
                                 queuedAt := at, startedAt := None, finishedAt := None)],
                   s.deps, s.pending, s.applied, at)
  {
  }

  lemma DeliveryShows(dep: DeploymentStatus, e: Event)
    requires e.deployment == Some(5) && Concerns(e, 5)
    ensures Handle(map[5 := dep], e) == map[5 := Projected(e)]
  {
  }

  /** A deployment whose job was created, started, and announced as such. */
  lemma StartedDeployment() returns (acts: seq<Action>)
    ensures Runs(INIT, acts) && FaithfulRun(INIT, acts)
    ensures After(INIT, acts) ==
            Sys(map[7 := Job(1, Some(3), Some(5), AppDeploy, "", Running, 2, Some(4), None)], map[5 := Deploying], [],
                [JobCreated(Some(5), Some(3), AppDeploy), JobStarted(Some(5), Some(3), AppDeploy)], 5)
  {
    acts := CreatedDeployment();
    StartShows(After(INIT, acts), After(INIT, acts).rows[7], 4);
    DeliveryShows(Pending, JobStarted(Some(5), Some(3), AppDeploy));
    acts := Take(acts, Action(4, StartJob(7)));
    acts := Announce(acts, JobStarted(Some(5), Some(3), AppDeploy), 5);
  }

  /** The same job failed at some time, and announced as failed a second later. */
  lemma FailedDeployment(at: int) returns (started: seq<Action>, acts: seq<Action>)
    requires at >= 5
    ensures Runs(INIT, started) && FaithfulRun(INIT, started)
    ensures After(INIT, started) ==
            Sys(map[7 := Job(1, Some(3), Some(5), AppDeploy, "", Running, 2, Some(4), None)], map[5 := Deploying], [],
                [JobCreated(Some(5), Some(3), AppDeploy), JobStarted(Some(5), Some(3), AppDeploy)], 5)
    ensures acts == started + [Action(at, FinishJob(7, Failed)), Action(at + 1, Deliver(0, true))]
    ensures Runs(INIT, acts) && FaithfulRun(INIT, acts)
    ensures After(INIT, acts) ==
            Sys(map[7 := Job(1, Some(3), Some(5), AppDeploy, "", Failed, 2, Some(4), Some(at))], map[5 := DeployFailed],
                [], [JobCreated(Some(5), Some(3), AppDeploy), JobStarted(Some(5), Some(3), AppDeploy),
                     JobFinished(Some(5), Some(3), AppDeploy, Failed)], at + 1)
  {
    started := StartedDeployment();
    FinishShows(After(INIT, started), After(INIT, started).rows[7], Failed, at);
    DeliveryShows(Deploying, JobFinished(Some(5), Some(3), AppDeploy, Failed));
    acts := Take(started, Action(at, FinishJob(7, Failed)));
    acts := Announce(acts, JobFinished(Some(5), Some(3), AppDeploy, Failed), at + 1);
  }

  /** The tables of a run that has only job 7, for deployment 5. */
  ghost predicate Shows(acts: seq<Action>, job: Job, dep: DeploymentStatus, pending: seq<Event>, clock: int) {
    var s := After(INIT, acts);
    s.rows == map[7 := job] && s.deps == map[5 := dep] && s.pending == pending && s.clock == clock
  }

  lemma LateReport(acts: seq<Action>, late: Action)
    requires Runs(INIT, acts) && late == Action(8, FinishJob(7, Success))
    requires Shows(acts, Job(1, Some(3), Some(5), AppDeploy, "", Failed, 2, Some(4), Some(6)), DeployFailed, [], 7)
    ensures Runs(INIT, acts + [late])
    ensures Shows(acts + [late], Job(1, Some(3), Some(5), AppDeploy, "", Failed, 2, Some(4), Some(6)), DeployFailed,
                  [JobFinished(Some(5), Some(3), AppDeploy, Success)], 8)
  {
    Extend(INIT, acts, late);
  }

  lemma LateDelivery(acts: seq<Action>, told: Action)
    requires Runs(INIT, acts) && told == Action(9, Deliver(0, true))
    requires Shows(acts, Job(1, Some(3), Some(5), AppDeploy, "", Failed, 2, Some(4), Some(6)), DeployFailed,
                   [JobFinished(Some(5), Some(3), AppDeploy, Success)], 8)
    ensures Runs(INIT, acts + [told]) && Faithful(After(INIT, acts), told)
    ensures Shows(acts + [told], Job(1, Some(3), Some(5), AppDeploy, "", Failed, 2, Some(4), Some(6)), DeploySuccess,
                  [], 9)
  {
    Extend(INIT, acts, told);
  }

  /** A reaped job whose agent reports afterwards: one missed guard, and the copies part. */
  lemma LateFinishBreaksAgreement() returns (acts: seq<Action>, late: Action)
    ensures Runs(INIT, acts) && FaithfulRun(INIT, acts) && late.step == FinishJob(7, Success)
    ensures After(INIT, acts).pending == []
    ensures var s := After(INIT, acts + [late, Action(9, Deliver(0, true))]);
            && Runs(INIT, acts + [late, Action(9, Deliver(0, true))])
            && Faithful(After(INIT, acts + [late]), Action(9, Deliver(0, true)))
            && s.pending == [] && 7 in s.rows && Tracked(s.rows[7]) && 5 in s.deps
            && s.rows[7].status == Failed && s.deps[5] == DeploySuccess
  {
    var _, failed := FailedDeployment(6);
    acts := failed;
    late := Action(8, FinishJob(7, Success));
    LateReport(acts, late);
    LateDelivery(acts + [late], Action(9, Deliver(0, true)));
    assert acts + [late] + [Action(9, Deliver(0, true))] == acts + [late, Action(9, Deliver(0, true))];
  }

  lemma RequeuedDeployment(failed: seq<Action>) returns (acts: seq<Action>)
    requires Runs(INIT, failed) && FaithfulRun(INIT, failed)
    requires Shows(failed, Job(1, Some(3), Some(5), AppDeploy, "", Failed, 2, Some(4), Some(6)), DeployFailed, [], 7)
    ensures acts == failed + [Action(8, RetryJob(7, ""))] && Runs(INIT, acts) && FaithfulRun(INIT, acts)
    ensures Shows(acts, Job(1, Some(3), Some(5), AppDeploy, "", Queued, 8, None, None), DeployFailed, [], 8)
  {
    RequeueShows(After(INIT, failed), After(INIT, failed).rows[7], 8);
    acts := Take(failed, Action(8, RetryJob(7, "")));
  }

  /** The failed job requeued, started again, and announced as started. */
  lemma RestartedDeployment(failed: seq<Action>) returns (acts: seq<Action>)
    requires Runs(INIT, failed) && FaithfulRun(INIT, failed)
    requires Shows(failed, Job(1, Some(3), Some(5), AppDeploy, "", Failed, 2, Some(4), Some(6)), DeployFailed, [], 7)
    ensures acts == failed + [Action(8, RetryJob(7, "")), Action(9, StartJob(7)), Action(10, Deliver(0, true))]
    ensures Runs(INIT, acts) && FaithfulRun(INIT, acts)
    ensures Shows(acts, Job(1, Some(3), Some(5), AppDeploy, "", Running, 8, Some(9), None), Deploying, [], 10)
  {
    acts := RequeuedDeployment(failed);
    StartShows(After(INIT, acts), After(INIT, acts).rows[7], 9);
    DeliveryShows(DeployFailed, JobStarted(Some(5), Some(3), AppDeploy));
    acts := Take(acts, Action(9, StartJob(7)));
    acts := Announce(acts, JobStarted(Some(5), Some(3), AppDeploy), 10);
  }

  /** Two requests to retry a failed job both read it as failed; the second requeues it when it runs again. */
  lemma SecondRetryBreaksAgreement() returns (read: seq<Action>, meanwhile: seq<Action>, second: Action)
    ensures Runs(INIT, read + meanwhile) && FaithfulRun(INIT, read + meanwhile)
    ensures 7 in After(INIT, read).rows && After(INIT, read).rows[7].status == Failed
    ensures second.step == RetryJob(7, "") && Enabled(After(INIT, read + meanwhile), second)
    ensures var s := Next(After(INIT, read + meanwhile), second);
            && s.pending == [] && 7 in s.rows && Tracked(s.rows[7]) && 5 in s.deps
            && s.rows[7].status == Queued && s.deps[5] == Deploying
  {
    var started;
    started, read := FailedDeployment(6);
    meanwhile := [Action(8, RetryJob(7, "")), Action(9, StartJob(7)), Action(10, Deliver(0, true))];
    second := Action(11, RetryJob(7, ""));
    var acts := RestartedDeployment(read);
  }

  lemma UnannouncedDeployment() returns (acts: seq<Action>)
    ensures Runs(INIT, acts) && FaithfulRun(INIT, acts)
    ensures Shows(acts, Job(1, Some(3), Some(5), AppDeploy, "", Success, 2, Some(4), Some(5)), Pending,
                  [JobStarted(Some(5), Some(3), AppDeploy), JobFinished(Some(5), Some(3), AppDeploy, Success)], 5)
  {
    acts := CreatedDeployment();
    StartShows(After(INIT, acts), After(INIT, acts).rows[7], 4);
    acts := Take(acts, Action(4, StartJob(7)));
    FinishShows(After(INIT, acts), After(INIT, acts).rows[7], Success, 5);
    acts := Take(acts, Action(5, FinishJob(7, Success)));
  }

  /** Every guard is hit, but the status write for the start's event is lost. */
  lemma LostWriteBreaksAgreement() returns (acts: seq<Action>, lost: Action)
    ensures Runs(INIT, acts) && FaithfulRun(INIT, acts) && lost.step == Deliver(0, false)
    ensures Runs(INIT, acts + [lost]) && !Harmless(After(INIT, acts), lost)
    ensures var s := After(INIT, acts + [lost]);
            s.pending == [] && 7 in s.rows && s.rows[7].status == Running && 5 in s.deps && s.deps[5] == Pending
  {
    acts := CreatedDeployment();
    StartShows(After(INIT, acts), After(INIT, acts).rows[7], 4);
    acts := Take(acts, Action(4, StartJob(7)));
    lost := Action(5, Deliver(0, false));
    Extend(INIT, acts, lost);
    WriteIsLost(After(INIT, acts), JobStarted(Some(5), Some(3), AppDeploy), lost);
  }

  lemma WriteIsLost(s: Sys, e: Event, lost: Action)
    requires s.pending == [e] && Concerns(e, 5) && s.deps == map[5 := Pending] && lost.step == Deliver(0, false)
    requires 7 in s.rows && s.rows[7].status == Running && s.rows[7].deployment == Some(5) && Tracked(s.rows[7])
    ensures Next(s, lost) == s.(pending := [], clock := lost.at) && !Harmless(s, lost)
  {
    assert Without([e], 0) == [] && [e][..0] == [];
    assert !HarmlessFor(s, lost, 7);
  }

  lemma LaterEventFirst(s: Sys, first: Event, second: Event, at: int)
    requires s.pending == [first, second] && Concerns(first, 5) && Concerns(second, 5) && 5 in s.deps
    ensures var t := Next(s, Action(at, Deliver(1, true)));
            && t == Sys(s.rows, s.deps[5 := Projected(second)], [first], s.applied + [second], at)
            && Next(t, Action(at + 1, Deliver(0, true)))
               == Sys(s.rows, s.deps[5 := Projected(first)], [], s.applied + [second] + [first], at + 1)
  {
    assert Without([first, second], 1) == [first] && Without([first], 0) == [];
    assert s.deps[5 := Projected(second)][5 := Projected(first)] == s.deps[5 := Projected(first)];
  }

  /** Every guard is hit, but the start's event reaches the listener after the finish's. */
  lemma OvertakenEventBreaksAgreement() returns (acts: seq<Action>, swapped: Action)
    ensures Runs(INIT, acts) && FaithfulRun(INIT, acts) && swapped.step == Deliver(1, true)
    ensures var s := After(INIT, acts + [swapped, Action(7, Deliver(0, true))]);
            && Runs(INIT, acts + [swapped, Action(7, Deliver(0, true))])
            && s.pending == [] && 7 in s.rows && Tracked(s.rows[7]) && 5 in s.deps
            && s.rows[7].status == Success && s.deps[5] == Deploying
  {
    acts := UnannouncedDeployment();
    swapped := Action(6, Deliver(1, true));
    LaterEventFirst(After(INIT, acts), JobStarted(Some(5), Some(3), AppDeploy),
                    JobFinished(Some(5), Some(3), AppDeploy, Success), 6);
    Extend(INIT, acts, swapped);
    Extend(INIT, acts + [swapped], Action(7, Deliver(0, true)));
    assert acts + [swapped] + [Action(7, Deliver(0, true))] == acts + [swapped, Action(7, Deliver(0, true))];
  }
}
