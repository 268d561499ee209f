/** The jobs table of the control plane and the guarded UPDATE statements that change it. */
module JobTable {
  import opened Common

  datatype JobStatus = Queued | Running | Success | Failed | Expired

  datatype JobType =
    | AppDeploy
    | AppStart
    | AppStop
    | AppRestart
    | AppRollback
    | AppHealthCheck
    | AppDestroy
    | MetricsCollect
    | OtherType(name: string)

  datatype Job = Job(
    server: nat,
    app: Option<nat>,
    deployment: Option<nat>,
    kind: JobType,
    payload: string,
    status: JobStatus,
    queuedAt: int,
    startedAt: Option<int>,
    finishedAt: Option<int>)

  datatype JobError = JobNotFound

  type Rows = map<nat, Job>

  /** The row an INSERT leaves behind: the columns it does not name take their defaults. */
  function NewRow(server: nat, app: Option<nat>, deployment: Option<nat>, kind: JobType, payload: string,
                  now: int): Job
  {
    Job(server, app, deployment, kind, payload, Queued, now, None, None)
  }

  predicate CanStart(rows: Rows, id: nat) {
    id in rows && rows[id].status == Queued
  }

  predicate CanFinish(rows: Rows, id: nat) {
    id in rows && rows[id].status == Running
  }

  function Started(rows: Rows, id: nat, now: int): Rows {
    if CanStart(rows, id) then rows[id := rows[id].(status := Running, startedAt := Some(now))] else rows
  }

  function Finished(rows: Rows, id: nat, status: JobStatus, now: int): Rows {
    if CanFinish(rows, id) then rows[id := rows[id].(status := status, finishedAt := Some(now))] else rows
  }

  /** Unguarded: whatever the row's status was, it goes back to the queue with its stamps cleared. */
  function Requeued(rows: Rows, id: nat, payload: string, now: int): Rows {
    if id in rows then
      rows[id := rows[id].(payload := payload, status := Queued,
                           queuedAt := now, startedAt := None, finishedAt := None)]
    else
      rows
  }

  /** Which stamps a row carries in each status. */
  ghost predicate RowShape(j: Job) {
    match j.status
    case Queued => j.startedAt == None && j.finishedAt == None
    case Running => j.startedAt.Some? && j.finishedAt == None
    case _ => j.startedAt.Some? && j.finishedAt.Some? && j.startedAt.value <= j.finishedAt.value
  }

  /** How far through its life a row is; only a requeue moves it back. */
  function Rank(status: JobStatus): nat {
    match status
    case Queued => 0
    case Running => 1
    case _ => 2
  }

  /** The sort key under which a page lists larger keys first. */
  function SortKey(j: Job, ascending: bool): int {
    if ascending then -j.queuedAt else j.queuedAt
  }

  /** No row twice, best key first, and nothing in `matching` that was passed over outranks a listed row. */
  ghost predicate Ranked(rows: Rows, matching: set<nat>, ascending: bool, page: seq<nat>)
    requires matching <= rows.Keys
  {
    && (forall i :: 0 <= i < |page| ==> page[i] in matching)
    && (forall i, j :: 0 <= i < j < |page| ==>
          page[i] != page[j] && SortKey(rows[page[i]], ascending) >= SortKey(rows[page[j]], ascending))
    && (forall id, i :: id in matching && id !in page && 0 <= i < |page| ==>
          SortKey(rows[page[i]], ascending) >= SortKey(rows[id], ascending))
  }

  /** `page` is what ORDER BY queued_at with LIMIT `limit` may return for the rows in `matching`. */
  ghost predicate IsPage(rows: Rows, matching: set<nat>, ascending: bool, limit: nat, page: seq<nat>)
    requires matching <= rows.Keys
  {
    |page| == Min(limit, |matching|) && Ranked(rows, matching, ascending, page)
  }

  lemma RankedExtends(rows: Rows, matching: set<nat>, ascending: bool, page: seq<nat>, id: nat)
    requires matching <= rows.Keys && Ranked(rows, matching, ascending, page)
    requires id in matching && id !in page
    requires forall other :: other in matching && other !in page ==>
               SortKey(rows[id], ascending) >= SortKey(rows[other], ascending)
    ensures Ranked(rows, matching, ascending, page + [id])
  {
    var longer := page + [id];
    assert forall k :: 0 <= k < |page| ==> longer[k] == page[k];
    assert longer[|page|] == id;
    forall i, j | 0 <= i < j < |longer|
      ensures longer[i] != longer[j] && SortKey(rows[longer[i]], ascending) >= SortKey(rows[longer[j]], ascending)
    {
      assert longer[i] == page[i] && page[i] in page;
      assert j < |page| ==> longer[j] == page[j];
    }
    assert forall other :: other in page ==> other in longer;
  }

  function Elements(page: seq<nat>): set<nat> {
    set id | id in page
  }

  lemma {:induction false} DistinctSize(page: seq<nat>)
    requires forall i, j :: 0 <= i < j < |page| ==> page[i] != page[j]
    ensures |Elements(page)| == |page|
  {
    if page != [] {
      var front := page[..|page| - 1];
      DistinctSize(front);
      assert Elements(page) == Elements(front) + {page[|page| - 1]};
    }
  }

  /** A page omits a matching row only when the limit forces it to. */
  lemma PageIsCompleteUnlessFull(rows: Rows, matching: set<nat>, ascending: bool, limit: nat, page: seq<nat>)
    requires matching <= rows.Keys && IsPage(rows, matching, ascending, limit, page)
    ensures (forall id :: id in matching ==> id in page) <==> |matching| <= limit
  {
    DistinctSize(page);
    assert Elements(page) <= matching;
    if forall id :: id in matching ==> id in page {
      assert Elements(page) == matching;
    }
    if |matching| <= limit {
      SubsetOfSameSize(Elements(page), matching);
    }
  }

  lemma SubsetOfSameSize(a: set<nat>, b: set<nat>)
    requires a <= b && |a| == |b|
    ensures a == b
  {
    if x :| x in b && x !in a {
      assert a <= b - {x};
      SubsetSize(a, b - {x});
    }
  }

  lemma {:induction false} SubsetSize(a: set<nat>, b: set<nat>)
    requires a <= b
    ensures |a| <= |b|
  {
    if a != {} {
      var x :| x in a;
      SubsetSize(a - {x}, b - {x});
    }
  }

  class JobRepository {
    var rows: Rows
    var nextId: nat

    ghost predicate Valid()
      reads this
    {
      forall id :: id in rows ==> id < nextId
    }

    constructor ()
      ensures Valid() && rows == map[]
    {
      rows := map[];
      nextId := 1;
    }

    method Create(server: nat, app: Option<nat>, deployment: Option<nat>, kind: JobType, payload: string, now: int)
      returns (id: nat)
      requires Valid()
      modifies this
      ensures Valid()
      ensures id !in old(rows) && rows == old(rows)[id := NewRow(server, app, deployment, kind, payload, now)]
      ensures rows[id] == Job(server, app, deployment, kind, payload, Queued, now, None, None)
    {
      id := nextId;
      rows := rows[id := Job(server, app, deployment, kind, payload, Queued, now, None, None)];
      nextId := nextId + 1;
    }

    method GetByID(id: nat) returns (r: Result<Job, JobError>)
      ensures r == if id in rows then Ok(rows[id]) else Err(JobNotFound)
    {
      if id in rows {
        return Ok(rows[id]);
      }
      return Err(JobNotFound);
    }

    method Retry(id: nat, payload: string, now: int) returns (r: Result<Job, JobError>)
      requires Valid()
      modifies this`rows
      ensures Valid()
      ensures rows == Requeued(old(rows), id, payload, now)
      ensures id in rows ==>
                var was := old(rows)[id];
                rows[id] == Job(was.server, was.app, was.deployment, was.kind, payload, Queued, now, None, None)
      ensures r == if id in rows then Ok(rows[id]) else Err(JobNotFound)
    {
      if id !in rows {
        return Err(JobNotFound);
      }
      var j := rows[id];
      rows := rows[id := Job(j.server, j.app, j.deployment, j.kind, payload, Queued, now, None, None)];
      r := Ok(rows[id]);
    }

    /** A missed guard is not an error: the row is read back and returned as it is. */
    method MarkRunning(id: nat, now: int) returns (r: Result<Job, JobError>)
      requires Valid()
      modifies this`rows
      ensures Valid()
      ensures rows == Started(old(rows), id, now)
      ensures rows == if id in old(rows) && old(rows)[id].status == Queued then
                        old(rows)[id := old(rows)[id].(status := Running, startedAt := Some(now))]
                      else
                        old(rows)
      ensures r == if id in rows then Ok(rows[id]) else Err(JobNotFound)
    {
      if id in rows && rows[id].status == Queued {
        rows := rows[id := rows[id].(status := Running, startedAt := Some(now))];
        return Ok(rows[id]);
      }
      r := GetByID(id);
    }

    method MarkFinished(id: nat, status: JobStatus, now: int) returns (r: Result<Job, JobError>)
      requires Valid()
      modifies this`rows
      ensures Valid()
      ensures rows == Finished(old(rows), id, status, now)
      ensures rows == if id in old(rows) && old(rows)[id].status == Running then
                        old(rows)[id := old(rows)[id].(status := status, finishedAt := Some(now))]
                      else
                        old(rows)
      ensures r == if id in rows then Ok(rows[id]) else Err(JobNotFound)
    {
      if id in rows && rows[id].status == Running {
        rows := rows[id := rows[id].(status := status, finishedAt := Some(now))];
        return Ok(rows[id]);
      }
      r := GetByID(id);
    }

    method First(candidates: set<nat>, ascending: bool) returns (best: nat)
      requires candidates <= rows.Keys && candidates != {}
      ensures best in candidates
      ensures forall id :: id in candidates ==> SortKey(rows[best], ascending) >= SortKey(rows[id], ascending)
    {
      best :| best in candidates;
      var rest := candidates - {best};
      while rest != {}
        invariant best in candidates && rest <= candidates
        invariant forall id ::
                    id in candidates - rest ==> SortKey(rows[best], ascending) >= SortKey(rows[id], ascending)
        decreases rest
      {
        var id :| id in rest;
        if SortKey(rows[id], ascending) > SortKey(rows[best], ascending) {
          best := id;
        }
        rest := rest - {id};
      }
    }

    method Page(matching: set<nat>, ascending: bool, limit: nat) returns (page: seq<nat>)
      requires matching <= rows.Keys
      ensures IsPage(rows, matching, ascending, limit, page)
    {
      page := [];
      var rest := matching;
      while |page| < limit && rest != {}
        invariant rest == matching - Elements(page)
        invariant |page| + |rest| == |matching| && |page| <= limit
        invariant Ranked(rows, matching, ascending, page)
        decreases rest
      {
        var id := First(rest, ascending);
        RankedExtends(rows, matching, ascending, page, id);
        page := page + [id];
        rest := rest - {id};
      }
    }

    /** Running jobs, newest queue time first. */
    method ListRunning(limit: nat) returns (page: seq<nat>)
      ensures IsPage(rows, set id | id in rows && rows[id].status == Running, false, limit, page)
      ensures forall id :: id in page ==> id in rows && rows[id].status == Running
      ensures forall i, j :: 0 <= i < j < |page| ==> rows[page[i]].queuedAt >= rows[page[j]].queuedAt
      ensures forall id, i :: id in rows && rows[id].status == Running && id !in page && 0 <= i < |page| ==>
                rows[page[i]].queuedAt >= rows[id].queuedAt
    {
      page := Page(set id | id in rows && rows[id].status == Running, false, limit);
    }

    /** The jobs a server's agent polls for: its queued rows, oldest first, thirty at most. */
    method GetPending(server: nat) returns (page: seq<nat>)
      ensures IsPage(rows, set id | id in rows && rows[id].server == server && rows[id].status == Queued, true, 30,
                     page)
      ensures forall id :: id in page ==> id in rows && rows[id].server == server && rows[id].status == Queued
      ensures forall i, j :: 0 <= i < j < |page| ==> rows[page[i]].queuedAt <= rows[page[j]].queuedAt
      ensures forall id, i :: id in rows && rows[id].server == server && rows[id].status == Queued && id !in page
                              && 0 <= i < |page| ==>
                rows[page[i]].queuedAt <= rows[id].queuedAt
    {
      page := Page(set id | id in rows && rows[id].server == server && rows[id].status == Queued, true, 30);
    }
  }
}
