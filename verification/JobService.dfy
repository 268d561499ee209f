/** The job service and the deployment listener as objects: a call that is not interrupted is two machine steps. */
module JobService {
  import opened Common
  import opened JobTable
  import opened JobProtocol
  import opened JobAgreement

  /** Holds the deployments table; `written` says whether the status write of a call went through. */
  class DeploymentListener {
    var deps: Deployments
    ghost var applied: seq<Event>

    constructor ()
      ensures deps == map[] && applied == []
    {
      deps := map[];
      applied := [];
    }

    method UpdateStatus(d: nat, status: DeploymentStatus, written: bool)
      modifies this`deps
      ensures deps == if written && d in old(deps) then old(deps)[d := status] else old(deps)
    {
      if written && d in deps {
        deps := deps[d := status];
      }
    }

    method HandleJobCreated(deployment: Option<nat>, app: Option<nat>, kind: JobType, written: bool)
      modifies this
      ensures var e := JobCreated(deployment, app, kind);
              && deps == (if written then Handle(old(deps), e) else old(deps))
              && applied == (if written then old(applied) + [e] else old(applied))
      ensures deps == if written && deployment.Some? && app.Some? && (kind == AppDeploy || kind == AppRollback)
                         && deployment.value in old(deps) then
                        old(deps)[deployment.value := Pending]
                      else
                        old(deps)
    {
      if written {
        applied := applied + [JobCreated(deployment, app, kind)];
      }
      if deployment == None || app == None {
        return;
      }
      if kind != AppDeploy && kind != AppRollback {
        return;
      }
      UpdateStatus(deployment.value, Pending, written);
    }

    method HandleJobStarted(deployment: Option<nat>, app: Option<nat>, kind: JobType, written: bool)
      modifies this
      ensures var e := JobStarted(deployment, app, kind);
              && deps == (if written then Handle(old(deps), e) else old(deps))
              && applied == (if written then old(applied) + [e] else old(applied))
      ensures deps == if written && deployment.Some? && app.Some? && (kind == AppDeploy || kind == AppRollback)
                         && deployment.value in old(deps) then
                        old(deps)[deployment.value := Deploying]
                      else
                        old(deps)
    {
      if written {
        applied := applied + [JobStarted(deployment, app, kind)];
      }
      if deployment == None || app == None {
        return;
      }
      if kind != AppDeploy && kind != AppRollback {
        return;
      }
      UpdateStatus(deployment.value, Deploying, written);
    }

    method HandleJobFinished(deployment: Option<nat>, app: Option<nat>, kind: JobType, jobStatus: JobStatus,
                             written: bool)
      modifies this
      ensures var e := JobFinished(deployment, app, kind, jobStatus);
              && deps == (if written then Handle(old(deps), e) else old(deps))
              && applied == (if written then old(applied) + [e] else old(applied))
      ensures deps == if written && deployment.Some? && app.Some? && (kind == AppDeploy || kind == AppRollback)
                         && deployment.value in old(deps) then
                        old(deps)[deployment.value := if jobStatus == Failed then DeployFailed else DeploySuccess]
                      else
                        old(deps)
    {
      if written {
        applied := applied + [JobFinished(deployment, app, kind, jobStatus)];
      }
      if deployment == None || app == None {
        return;
      }
      if kind != AppDeploy && kind != AppRollback {
        return;
      }
      var status := DeploySuccess;
      if jobStatus == Failed {
        status := DeployFailed;
      }
      UpdateStatus(deployment.value, status, written);
    }
  }

  datatype RetryReply = NotFound | Conflict | Retried(job: Job)

  class JobService {
    const repo: JobRepository
    const listener: DeploymentListener

    constructor (repo: JobRepository, listener: DeploymentListener)
      ensures this.repo == repo && this.listener == listener
    {
      this.repo := repo;
      this.listener := listener;
    }

    /** The tables as the machine sees them between two calls. */
    ghost function State(now: int): Sys
      reads repo, listener
    {
      Sys(repo.rows, listener.deps, [], listener.applied, now)
    }

    method Create(server: nat, app: Option<nat>, deployment: Option<nat>, kind: JobType, payload: string, now: int,
                  written: bool)
      returns (id: nat)
      requires repo.Valid()
      modifies repo, listener
      ensures repo.Valid() && id !in old(repo.rows)
      ensures State(now)
              == Next(Next(old(State(now)), Action(now, CreateJob(id, server, app, deployment, kind, payload))),
                      Action(now, Deliver(0, written)))
    {
      id := repo.Create(server, app, deployment, kind, payload, now);
      listener.HandleJobCreated(deployment, app, kind, written);
      assert Without([JobCreated(deployment, app, kind)], 0) == [];
    }

    /** The job_started event goes out even when the row was not queued. */
    method Start(id: nat, now: int, written: bool) returns (r: Result<Job, JobError>)
      requires repo.Valid()
      modifies repo, listener
      ensures repo.Valid()
      ensures id !in old(repo.rows) ==> r == Err(JobNotFound) && State(now) == old(State(now))
      ensures id in old(repo.rows) ==>
                && id in repo.rows && r == Ok(repo.rows[id])
                && State(now)
                   == Next(Next(old(State(now)), Action(now, StartJob(id))), Action(now, Deliver(0, written)))
    {
      r := repo.MarkRunning(id, now);
      if r.Err? {
        return;
      }
      var job := r.value;
      listener.HandleJobStarted(job.deployment, job.app, job.kind, written);
      assert Without([JobStarted(job.deployment, job.app, job.kind)], 0) == [];
    }

    /** The event carries the status the caller reported, not the one the row ends up with. */
    method Finish(id: nat, status: JobStatus, now: int, written: bool) returns (r: Result<Job, JobError>)
      requires repo.Valid()
      modifies repo, listener
      ensures repo.Valid()
      ensures id !in old(repo.rows) ==> r == Err(JobNotFound) && State(now) == old(State(now))
      ensures id in old(repo.rows) ==>
                && id in repo.rows && r == Ok(repo.rows[id])
                && State(now)
                   == Next(Next(old(State(now)), Action(now, FinishJob(id, status))), Action(now, Deliver(0, written)))
    {
      r := repo.MarkFinished(id, status, now);
      if r.Err? {
        return;
      }
      var job := r.value;
      listener.HandleJobFinished(job.deployment, job.app, job.kind, status, written);
      assert Without([JobFinished(job.deployment, job.app, job.kind, status)], 0) == [];
    }

    method Retry(id: nat, payload: string, now: int) returns (r: Result<Job, JobError>)
      requires repo.Valid()
      modifies repo, listener
      ensures repo.Valid()
      ensures State(now) == Next(old(State(now)), Action(now, RetryJob(id, payload)))
      ensures r == if id in repo.rows then Ok(repo.rows[id]) else Err(JobNotFound)
    {
      r := repo.Retry(id, payload, now);
    }

    /** An uninterrupted retry request lets only failed and expired jobs through, so its requeue is a faithful step. */
    method HandleRetry(id: nat, now: int) returns (reply: RetryReply)
      requires repo.Valid()
      modifies repo, listener
      ensures repo.Valid()
      ensures reply.NotFound? <==> id !in old(repo.rows)
      ensures reply.Retried? <==>
                id in old(repo.rows) && (old(repo.rows)[id].status == Failed || old(repo.rows)[id].status == Expired)
      ensures !reply.Retried? ==> State(now) == old(State(now))
      ensures reply.Retried? ==>
                var a := Action(now, RetryJob(id, old(repo.rows)[id].payload));
                && Faithful(old(State(now)), a)
                && State(now) == Next(old(State(now)), a)
                && repo.rows[id] == reply.job
    {
      var found := repo.GetByID(id);
      if found.Err? {
        return NotFound;
      }
      if found.value.status != Failed && found.value.status != Expired {
        return Conflict;
      }
      var r := Retry(id, found.value.payload, now);
      if r.Err? {
        return NotFound;
      }
      reply := Retried(r.value);
    }
  }
}
