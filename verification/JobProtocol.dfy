/** Jobs, the events their calls publish, and the second copy of their status kept on deployments.

  A service call changes the row first and publishes afterwards, from its own goroutine. The machine
  below therefore splits a call in two: the row update queues an event, and `Deliver` hands any queued
  event to the deployment listener, in any order.
*/
module JobProtocol {
  import opened Common
  import opened JobTable

  datatype Event =
    | JobCreated(deployment: Option<nat>, app: Option<nat>, kind: JobType)
    | JobStarted(deployment: Option<nat>, app: Option<nat>, kind: JobType)
    | JobFinished(deployment: Option<nat>, app: Option<nat>, kind: JobType, status: JobStatus)

  type Deployments = map<nat, DeploymentStatus>

  predicate DeploysApp(kind: JobType) {
    kind == AppDeploy || kind == AppRollback
  }

  /** The listener acts on this event, and on this deployment. */
  predicate Concerns(e: Event, d: nat) {
    e.deployment == Some(d) && e.app.Some? && DeploysApp(e.kind)
  }

  predicate Tracked(j: Job) {
    j.deployment.Some? && j.app.Some? && DeploysApp(j.kind)
  }

  function Projected(e: Event): DeploymentStatus {
    match e
    case JobCreated(_, _, _) => Pending
    case JobStarted(_, _, _) => Deploying
    case JobFinished(_, _, _, status) => if status == Failed then DeployFailed else DeploySuccess
  }

  /** One event through the listener: a status write on the deployment it names, if there is one. */
  function Handle(deps: Deployments, e: Event): Deployments {
    if e.deployment.Some? && Concerns(e, e.deployment.value) && e.deployment.value in deps then
      deps[e.deployment.value := Projected(e)]
    else
      deps
  }

  /** The status that the events about `d`, in order, lead to. */
  function Fold(start: DeploymentStatus, events: seq<Event>, d: nat): DeploymentStatus {
    if events == [] then
      start
    else
      var e := events[|events| - 1];
      if Concerns(e, d) then Projected(e) else Fold(start, events[..|events| - 1], d)
  }

  // ---------------------------------------------------------------- the machine

  datatype Sys = Sys(rows: Rows, deps: Deployments, pending: seq<Event>, applied: seq<Event>, clock: int)

  datatype Step =
    | NewDeployment(d: nat)
    | CreateJob(id: nat, server: nat, app: Option<nat>, deployment: Option<nat>, kind: JobType, payload: string)
    | StartJob(id: nat)
    | FinishJob(id: nat, status: JobStatus)
    | RetryJob(id: nat, payload: string)
    | Deliver(i: nat, written: bool)

  datatype Action = Action(at: int, step: Step)

  const INIT := Sys(map[], map[], [], [], 0)

  /** A deployment gets its one job when it is made; finishers report success or failure. */
  predicate Enabled(s: Sys, a: Action) {
    && a.at >= s.clock
    && match a.step
       case NewDeployment(d) => d !in s.deps
       case CreateJob(id, _, _, deployment, _, _) =>
         && id !in s.rows
         && (deployment.Some? ==>
               && deployment.value in s.deps
               && forall other :: other in s.rows ==> s.rows[other].deployment != deployment)
       case FinishJob(_, status) => status == Success || status == Failed
       case Deliver(i, _) => i < |s.pending|
       case _ => true
  }

  /** The event is published whether or not the guarded update changed the row, as long as the row exists. */
  function Next(s: Sys, a: Action): Sys {
    var s := s.(clock := a.at);
    match a.step
    case NewDeployment(d) => s.(deps := s.deps[d := Pending])
    case CreateJob(id, server, app, deployment, kind, payload) =>
      s.(rows := s.rows[id := NewRow(server, app, deployment, kind, payload, a.at)],
         pending := s.pending + [JobCreated(deployment, app, kind)])
    case StartJob(id) =>
      if id !in s.rows then s else
      s.(rows := Started(s.rows, id, a.at),
         pending := s.pending + [JobStarted(s.rows[id].deployment, s.rows[id].app, s.rows[id].kind)])
    case FinishJob(id, status) =>
      if id !in s.rows then s else
      s.(rows := Finished(s.rows, id, status, a.at),
         pending := s.pending + [JobFinished(s.rows[id].deployment, s.rows[id].app, s.rows[id].kind, status)])
    case RetryJob(id, payload) => s.(rows := Requeued(s.rows, id, payload, a.at))
    case Deliver(i, written) =>
      if i >= |s.pending| then s else
      var e := s.pending[i];
      var left := s.(pending := Without(s.pending, i));
      if written then left.(deps := Handle(s.deps, e), applied := s.applied + [e]) else left
  }

  function After(s: Sys, acts: seq<Action>): Sys {
    if acts == [] then s else Next(After(s, acts[..|acts| - 1]), acts[|acts| - 1])
  }

  predicate Runs(s: Sys, acts: seq<Action>) {
    acts == [] || (Runs(s, acts[..|acts| - 1]) && Enabled(After(s, acts[..|acts| - 1]), acts[|acts| - 1]))
  }

  lemma Extend(s: Sys, acts: seq<Action>, a: Action)
    requires Runs(s, acts) && Enabled(After(s, acts), a)
    ensures Runs(s, acts + [a]) && After(s, acts + [a]) == Next(After(s, acts), a)
  {
    assert (acts + [a])[..|acts|] == acts;
  }

  /** Nobody's call is refused: at any later time any job may be started, reported or requeued, whatever its row says, a
      job may be created without a deployment or for one that has none, and any event on its way may come next, its
      write lost or not. */
  lemma EveryCallIsAStep(s: Sys, at: int, id: nat, status: JobStatus, payload: string, i: nat, written: bool)
    requires at >= s.clock
    ensures Enabled(s, Action(at, StartJob(id))) && Enabled(s, Action(at, RetryJob(id, payload)))
    ensures status == Success || status == Failed ==> Enabled(s, Action(at, FinishJob(id, status)))
    ensures i < |s.pending| ==> Enabled(s, Action(at, Deliver(i, written)))
    ensures forall server, app, kind :: id !in s.rows ==>
              Enabled(s, Action(at, CreateJob(id, server, app, None, kind, payload)))
    ensures forall server, app, kind, d ::
              id !in s.rows && d in s.deps
              && (forall other :: other in s.rows ==> s.rows[other].deployment != Some(d)) ==>
              Enabled(s, Action(at, CreateJob(id, server, app, Some(d), kind, payload)))
    ensures forall d :: d !in s.deps ==> Enabled(s, Action(at, NewDeployment(d)))
  {
  }

  // ---------------------------------------------------------------- deployment status is a fold

  ghost predicate EventsNameDeployments(s: Sys, events: seq<Event>) {
    forall i, d :: 0 <= i < |events| && Concerns(events[i], d) ==> d in s.deps
  }

  ghost predicate FoldInv(s: Sys) {
    && (forall id :: id in s.rows && s.rows[id].deployment.Some? ==> s.rows[id].deployment.value in s.deps)
    && EventsNameDeployments(s, s.pending)
    && EventsNameDeployments(s, s.applied)
    && (forall d :: d in s.deps ==> s.deps[d] == Fold(Pending, s.applied, d))
  }

  lemma {:induction false} FoldUnconcerned(start: DeploymentStatus, events: seq<Event>, d: nat)
    requires forall i :: 0 <= i < |events| ==> !Concerns(events[i], d)
    ensures Fold(start, events, d) == start
  {
    if events != [] {
      FoldUnconcerned(start, events[..|events| - 1], d);
    }
  }

  lemma FoldSnoc(start: DeploymentStatus, events: seq<Event>, e: Event, d: nat)
    ensures Fold(start, events + [e], d) == if Concerns(e, d) then Projected(e) else Fold(start, events, d)
  {
    assert (events + [e])[..|events|] == events;
  }

  lemma DeliveryKeepsFold(s: Sys, a: Action)
    requires FoldInv(s) && Enabled(s, a) && a.step.Deliver?
    ensures FoldInv(Next(s, a))
  {
    var t := Next(s, a);
    var i, e := a.step.i, s.pending[a.step.i];
    forall k, d | 0 <= k < |t.pending| && Concerns(t.pending[k], d)
      ensures d in t.deps
    {
      assert t.pending[k] == s.pending[if k < i then k else k + 1];
    }
    forall d | d in s.deps
      ensures t.deps[d] == Fold(Pending, t.applied, d)
    {
      FoldSnoc(Pending, s.applied, e, d);
    }
  }

  lemma NewDeploymentKeepsFold(s: Sys, a: Action)
    requires FoldInv(s) && Enabled(s, a) && a.step.NewDeployment?
    ensures FoldInv(Next(s, a))
  {
    FoldUnconcerned(Pending, s.applied, a.step.d);
  }

  lemma CallKeepsFold(s: Sys, a: Action)
    requires FoldInv(s) && Enabled(s, a) && !a.step.Deliver? && !a.step.NewDeployment?
    ensures FoldInv(Next(s, a))
  {
  }

  lemma FoldStep(s: Sys, a: Action)
    requires FoldInv(s) && Enabled(s, a)
    ensures FoldInv(Next(s, a))
  {
    match a.step
    case NewDeployment(_) => NewDeploymentKeepsFold(s, a);
    case Deliver(_, _) => DeliveryKeepsFold(s, a);
    case _ => CallKeepsFold(s, a);
  }

  /** In every run a deployment's status is the fold of the events delivered for it. */
  lemma {:induction false} StatusIsFoldOfEvents(acts: seq<Action>)
    requires Runs(INIT, acts)
    ensures FoldInv(After(INIT, acts))
    ensures var s := After(INIT, acts); forall d :: d in s.deps ==> s.deps[d] == Fold(Pending, s.applied, d)
  {
    if acts != [] {
      StatusIsFoldOfEvents(acts[..|acts| - 1]);
      FoldStep(After(INIT, acts[..|acts| - 1]), acts[|acts| - 1]);
    }
  }

  /** What the listener makes of one event, kind by kind: deploys and rollbacks of an application move the deployment
      they name, every other event moves none. */
  lemma ListenerFollows(deps: Deployments, e: Event, d: nat)
    requires d in deps
    ensures Handle(deps, e).Keys == deps.Keys
    ensures Handle(deps, e)[d]
            == if e.deployment == Some(d) && e.app.Some? && (e.kind == AppDeploy || e.kind == AppRollback) then
                 (match e
                  case JobCreated(_, _, _) => Pending
                  case JobStarted(_, _, _) => Deploying
                  case JobFinished(_, _, _, status) => if status == Failed then DeployFailed else DeploySuccess)
               else
                 deps[d]
  {
  }

  lemma {:induction false} FoldIsLast(start: DeploymentStatus, events: seq<Event>, d: nat, i: nat)
    requires i < |events| && Concerns(events[i], d) && forall j :: i < j < |events| ==> !Concerns(events[j], d)
    ensures Fold(start, events, d) == Projected(events[i])
  {
    if i < |events| - 1 {
      FoldIsLast(start, events[..|events| - 1], d, i);
    }
  }

  /** In every run: a deployment shows what the last event written for its deploy or rollback job says, and is pending
      while there was none. */
  lemma LastEventDecides(acts: seq<Action>, d: nat)
    requires Runs(INIT, acts) && d in After(INIT, acts).deps
    ensures var s := After(INIT, acts);
            var mine := set i | 0 <= i < |s.applied| && s.applied[i].deployment == Some(d) && s.applied[i].app.Some?
                                && (s.applied[i].kind == AppDeploy || s.applied[i].kind == AppRollback);
            && (mine == {} ==> s.deps[d] == Pending)
            && forall i :: i in mine && (forall j :: j in mine ==> j <= i) ==>
                 s.deps[d] == match s.applied[i]
                              case JobCreated(_, _, _) => Pending
                              case JobStarted(_, _, _) => Deploying
                              case JobFinished(_, _, _, status) =>
                                if status == Failed then DeployFailed else DeploySuccess
  {
    var s := After(INIT, acts);
    var mine := set i | 0 <= i < |s.applied| && s.applied[i].deployment == Some(d) && s.applied[i].app.Some?
                        && (s.applied[i].kind == AppDeploy || s.applied[i].kind == AppRollback);
    StatusIsFoldOfEvents(acts);
    assert forall i :: 0 <= i < |s.applied| ==> (Concerns(s.applied[i], d) <==> i in mine);
    if mine == {} {
      FoldUnconcerned(Pending, s.applied, d);
    }
    forall i | i in mine && forall j :: j in mine ==> j <= i
      ensures s.deps[d] == Projected(s.applied[i])
    {
      FoldIsLast(Pending, s.applied, d, i);
    }
  }

  // ---------------------------------------------------------------- what rows look like, and who finishes first

  ghost predicate RowsInv(s: Sys) {
    forall id :: id in s.rows ==>
      && RowShape(s.rows[id])
      && (s.rows[id].startedAt.Some? ==> s.rows[id].startedAt.value <= s.clock)
  }

  lemma RowsStep(s: Sys, a: Action)
    requires RowsInv(s) && Enabled(s, a)
    ensures RowsInv(Next(s, a))
  {
    var t := Next(s, a);
    forall id | id in t.rows
      ensures RowShape(t.rows[id]) && (t.rows[id].startedAt.Some? ==> t.rows[id].startedAt.value <= t.clock)
    {
      assert id in s.rows ==> RowShape(s.rows[id]);
    }
  }

  /** In every interleaving each row carries exactly the stamps its status calls for, in order. */
  lemma {:induction false} RowsKeepShape(acts: seq<Action>)
    requires Runs(INIT, acts)
    ensures RowsInv(After(INIT, acts))
  {
    if acts != [] {
      RowsKeepShape(acts[..|acts| - 1]);
      RowsStep(After(INIT, acts[..|acts| - 1]), acts[|acts| - 1]);
    }
  }

  predicate NeverRequeues(acts: seq<Action>, id: nat) {
    forall i :: 0 <= i < |acts| ==> !(acts[i].step.RetryJob? && acts[i].step.id == id)
  }

  function StartHits(s: Sys, acts: seq<Action>, id: nat): nat {
    if acts == [] then 0 else
    var before := After(s, acts[..|acts| - 1]);
    StartHits(s, acts[..|acts| - 1], id)
    + (if acts[|acts| - 1].step == StartJob(id) && CanStart(before.rows, id) then 1 else 0)
  }

  function FinishHits(s: Sys, acts: seq<Action>, id: nat): nat {
    if acts == [] then 0 else
    var before := After(s, acts[..|acts| - 1]);
    var step := acts[|acts| - 1].step;
    FinishHits(s, acts[..|acts| - 1], id)
    + (if step.FinishJob? && step.id == id && CanFinish(before.rows, id) then 1 else 0)
  }

  /** What one step other than its own requeue does to the rank of a row. */
  lemma RankStep(s: Sys, a: Action, id: nat)
    requires id in s.rows && Enabled(s, a) && !(a.step.RetryJob? && a.step.id == id)
    ensures var t := Next(s, a);
            && id in t.rows
            && Rank(t.rows[id].status)
               == Rank(s.rows[id].status)
                  + (if a.step == StartJob(id) && CanStart(s.rows, id) then 1 else 0)
                  + (if a.step.FinishJob? && a.step.id == id && CanFinish(s.rows, id) then 1 else 0)
  {
  }

  /** Between two requeues at most one start and one finish take effect, the start first: hits are ranks climbed. */
  lemma {:induction false} AtMostOneStartAndFinish(s: Sys, acts: seq<Action>, id: nat)
    requires id in s.rows && Runs(s, acts) && NeverRequeues(acts, id)
    ensures id in After(s, acts).rows && Rank(s.rows[id].status) <= Rank(After(s, acts).rows[id].status)
    ensures StartHits(s, acts, id)
            == if s.rows[id].status == Queued && After(s, acts).rows[id].status != Queued then 1 else 0
    ensures FinishHits(s, acts, id)
            == if Rank(s.rows[id].status) < 2 && Rank(After(s, acts).rows[id].status) == 2 then 1 else 0
  {
    if acts != [] {
      AtMostOneStartAndFinish(s, acts[..|acts| - 1], id);
      RankStep(After(s, acts[..|acts| - 1]), acts[|acts| - 1], id);
    }
  }

  /** The first finisher wins: until a requeue, nothing alters any column of a finished row. */
  lemma {:induction false} FirstFinisherWins(s: Sys, acts: seq<Action>, id: nat)
    requires id in s.rows && Rank(s.rows[id].status) == 2 && NeverRequeues(acts, id) && Runs(s, acts)
    ensures id in After(s, acts).rows && After(s, acts).rows[id] == s.rows[id]
  {
    if acts != [] {
      FirstFinisherWins(s, acts[..|acts| - 1], id);
    }
  }
}
