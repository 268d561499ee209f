/** Deployments, their environment snapshots and previous-deployment links, and the diff shown between two of them. */
module EnvDiff {
  import opened Common

  type Env = map<string, string>

  datatype Entry = Entry(key: string, before: string, after: string)

  datatype DeploymentDiff = DeploymentDiff(
    hasPrevious: bool,
    commitFrom: Option<string>,
    commitTo: Option<string>,
    additions: seq<Entry>,
    removals: seq<Entry>,
    updates: seq<Entry>)

  datatype Deployment = Deployment(
    app: nat,
    status: DeploymentStatus,
    commitHash: Option<string>,
    snapshot: Option<Env>,
    previous: Option<nat>,
    previousCommit: Option<string>)

  type Rows = map<nat, Deployment>

  datatype DiffError = DeploymentNotFound

  function EnvOf(d: Deployment): Env {
    if d.snapshot.Some? then d.snapshot.value else map[]
  }

  function KeysOf(entries: seq<Entry>): set<string> {
    if entries == [] then {} else KeysOf(entries[..|entries| - 1]) + {entries[|entries| - 1].key}
  }

  /** One entry for each of the keys, with the values from both sides; in whatever order the map gave them. */
  ghost predicate Lists(entries: seq<Entry>, keys: set<string>, prev: Env, cur: Env) {
    && KeysOf(entries) == keys
    && (forall i, j :: 0 <= i < j < |entries| ==> entries[i].key != entries[j].key)
    && (forall i :: 0 <= i < |entries| ==> Faithful(entries[i], prev, cur))
  }

  predicate Faithful(e: Entry, prev: Env, cur: Env) {
    e.before == Lookup(prev, e.key) && e.after == Lookup(cur, e.key)
  }

  function Changed(prev: Env, cur: Env): set<string> {
    set k | k in prev && k in cur && prev[k] != cur[k]
  }

  ghost predicate IsDiff(prev: Env, cur: Env, d: DeploymentDiff) {
    && Lists(d.additions, cur.Keys - prev.Keys, prev, cur)
    && Lists(d.updates, Changed(prev, cur), prev, cur)
    && Lists(d.removals, prev.Keys - cur.Keys, prev, cur)
  }

  // ---------------------------------------------------------------- applying a diff, both ways

  function SetAfter(env: Env, entries: seq<Entry>): Env {
    if entries == [] then env
    else SetAfter(env, entries[..|entries| - 1])[entries[|entries| - 1].key := entries[|entries| - 1].after]
  }

  function SetBefore(env: Env, entries: seq<Entry>): Env {
    if entries == [] then env
    else SetBefore(env, entries[..|entries| - 1])[entries[|entries| - 1].key := entries[|entries| - 1].before]
  }

  function Unset(env: Env, entries: seq<Entry>): Env {
    if entries == [] then env else Unset(env, entries[..|entries| - 1]) - {entries[|entries| - 1].key}
  }

  function Forwards(prev: Env, d: DeploymentDiff): Env {
    SetAfter(SetAfter(Unset(prev, d.removals), d.updates), d.additions)
  }

  function Backwards(cur: Env, d: DeploymentDiff): Env {
    SetBefore(SetBefore(Unset(cur, d.additions), d.updates), d.removals)
  }

  lemma {:induction false} SetAfterGives(env: Env, entries: seq<Entry>, prev: Env, cur: Env)
    requires forall i :: 0 <= i < |entries| ==> Faithful(entries[i], prev, cur)
    ensures SetAfter(env, entries).Keys == env.Keys + KeysOf(entries)
    ensures forall k :: k in SetAfter(env, entries) ==>
              SetAfter(env, entries)[k] == if k in KeysOf(entries) then Lookup(cur, k) else env[k]
  {
    if entries != [] {
      SetAfterGives(env, entries[..|entries| - 1], prev, cur);
    }
  }

  lemma {:induction false} SetBeforeGives(env: Env, entries: seq<Entry>, prev: Env, cur: Env)
    requires forall i :: 0 <= i < |entries| ==> Faithful(entries[i], prev, cur)
    ensures SetBefore(env, entries).Keys == env.Keys + KeysOf(entries)
    ensures forall k :: k in SetBefore(env, entries) ==>
              SetBefore(env, entries)[k] == if k in KeysOf(entries) then Lookup(prev, k) else env[k]
  {
    if entries != [] {
      SetBeforeGives(env, entries[..|entries| - 1], prev, cur);
    }
  }

  lemma {:induction false} UnsetGives(env: Env, entries: seq<Entry>)
    ensures Unset(env, entries) == env - KeysOf(entries)
  {
    if entries != [] {
      UnsetGives(env, entries[..|entries| - 1]);
    }
  }

  /** The diff takes the previous environment to the current one. */
  lemma ForwardsReachesCurrent(prev: Env, cur: Env, d: DeploymentDiff)
    requires IsDiff(prev, cur, d)
    ensures Forwards(prev, d) == cur
  {
    var kept := Unset(prev, d.removals);
    var updated := SetAfter(kept, d.updates);
    var reached := SetAfter(updated, d.additions);
    UnsetGives(prev, d.removals);
    SetAfterGives(kept, d.updates, prev, cur);
    SetAfterGives(updated, d.additions, prev, cur);
    forall k: string
      ensures k in reached <==> k in cur
      ensures k in cur ==> reached[k] == cur[k]
    {
      assert k in Changed(prev, cur) <==> k in prev && k in cur && prev[k] != cur[k];
    }
  }

  /** And undoing it takes the current one back. */
  lemma BackwardsReachesPrevious(prev: Env, cur: Env, d: DeploymentDiff)
    requires IsDiff(prev, cur, d)
    ensures Backwards(cur, d) == prev
  {
    var kept := Unset(cur, d.additions);
    var reverted := SetBefore(kept, d.updates);
    var reached := SetBefore(reverted, d.removals);
    UnsetGives(cur, d.additions);
    SetBeforeGives(kept, d.updates, prev, cur);
    SetBeforeGives(reverted, d.removals, prev, cur);
    forall k: string
      ensures k in reached <==> k in prev
      ensures k in prev ==> reached[k] == prev[k]
    {
      assert k in Changed(prev, cur) <==> k in prev && k in cur && prev[k] != cur[k];
    }
  }

  /** A diff is empty just when nothing changed, so an update never hides an equal value. */
  lemma EmptyDiffIffEqual(prev: Env, cur: Env, d: DeploymentDiff)
    requires IsDiff(prev, cur, d)
    ensures d.additions == [] && d.updates == [] && d.removals == [] <==> prev == cur
  {
    if d.additions == [] && d.updates == [] && d.removals == [] {
      ForwardsReachesCurrent(prev, cur, d);
    }
    if prev == cur {
      KeylessIsEmpty(d.additions);
      KeylessIsEmpty(d.updates);
      KeylessIsEmpty(d.removals);
    }
  }

  /** Each key stands once under the list it belongs to, with its values, and in no other. */
  lemma DiffTellsEachKey(prev: Env, cur: Env, d: DeploymentDiff, k: string)
    requires IsDiff(prev, cur, d)
    ensures k in cur && k !in prev
            <==> exists i :: 0 <= i < |d.additions| && d.additions[i] == Entry(k, "", Lookup(cur, k))
    ensures k in prev && k !in cur
            <==> exists i :: 0 <= i < |d.removals| && d.removals[i] == Entry(k, Lookup(prev, k), "")
    ensures k in prev && k in cur && prev[k] != cur[k]
            <==> exists i :: 0 <= i < |d.updates| && d.updates[i] == Entry(k, Lookup(prev, k), Lookup(cur, k))
    ensures forall i, j :: 0 <= i < j < |d.additions| ==> d.additions[i].key != d.additions[j].key
    ensures forall i, j :: 0 <= i < j < |d.removals| ==> d.removals[i].key != d.removals[j].key
    ensures forall i, j :: 0 <= i < j < |d.updates| ==> d.updates[i].key != d.updates[j].key
  {
    KeyHasEntry(d.additions, cur.Keys - prev.Keys, prev, cur, k);
    KeyHasEntry(d.removals, prev.Keys - cur.Keys, prev, cur, k);
    KeyHasEntry(d.updates, Changed(prev, cur), prev, cur, k);
  }

  lemma KeyHasEntry(entries: seq<Entry>, keys: set<string>, prev: Env, cur: Env, k: string)
    requires Lists(entries, keys, prev, cur)
    ensures k in keys <==> exists i :: 0 <= i < |entries| && entries[i] == Entry(k, Lookup(prev, k), Lookup(cur, k))
  {
    if k in keys {
      var i := KeyAt(entries, k);
      assert Faithful(entries[i], prev, cur);
    }
    if i :| 0 <= i < |entries| && entries[i] == Entry(k, Lookup(prev, k), Lookup(cur, k)) {
      KeysOfHas(entries, i);
    }
  }

  lemma {:induction false} KeyAt(entries: seq<Entry>, k: string) returns (i: nat)
    requires k in KeysOf(entries)
    ensures i < |entries| && entries[i].key == k
  {
    var n := |entries| - 1;
    if entries[n].key == k {
      i := n;
    } else {
      i := KeyAt(entries[..n], k);
    }
  }

  lemma KeylessIsEmpty(entries: seq<Entry>)
    ensures KeysOf(entries) == {} ==> entries == []
  {
    if entries != [] {
      assert entries[|entries| - 1].key in KeysOf(entries);
    }
  }

  // ---------------------------------------------------------------- the chain of previous deployments

  /** Links point down, within one application. */
  ghost predicate LinksDescend(rows: Rows) {
    forall id :: id in rows && rows[id].previous.Some? ==>
      && rows[id].previous.value < id
      && (rows[id].previous.value in rows ==> rows[rows[id].previous.value].app == rows[id].app)
  }

  /** The newest earlier successful deployment of the same application. */
  ghost predicate IsPredecessor(rows: Rows, id: nat, p: Option<nat>)
    requires id in rows
  {
    match p
    case None => forall q :: q in rows && q < id && rows[q].app == rows[id].app ==> rows[q].status != DeploySuccess
    case Some(q) =>
      && q in rows && q < id && rows[q].app == rows[id].app && rows[q].status == DeploySuccess
      && forall r :: r in rows && q < r < id && rows[r].app == rows[id].app ==> rows[r].status != DeploySuccess
  }

  /** What the diff of a deployment is, given the rows: against nothing when there is no previous row to be found. */
  ghost predicate IsDiffOf(rows: Rows, id: nat, d: DeploymentDiff)
    requires id in rows
  {
    var prev := rows[id].previous;
    && d.commitTo == rows[id].commitHash
    && d.hasPrevious == (prev.Some? && prev.value in rows)
    && d.commitFrom == (if d.hasPrevious then rows[prev.value].commitHash else None)
    && IsDiff(if d.hasPrevious then EnvOf(rows[prev.value]) else map[], EnvOf(rows[id]), d)
  }

  /** The diff of a deployment leads from the snapshot of its previous deployment to its own, and back. */
  lemma DiffLinksSnapshots(rows: Rows, id: nat, d: DeploymentDiff, was: Env, now: Env)
    requires id in rows && IsDiffOf(rows, id, d) && rows[id].snapshot == Some(now)
    requires rows[id].previous.Some? && rows[id].previous.value in rows
    requires rows[rows[id].previous.value].snapshot == Some(was)
    ensures Forwards(was, d) == now && Backwards(now, d) == was
  {
    ForwardsReachesCurrent(was, now, d);
    BackwardsReachesPrevious(was, now, d);
  }

  /** The diffs of a deployment and its predecessors, applied from the far end of the chain. */
  ghost function Replay(rows: Rows, diffs: map<nat, DeploymentDiff>, id: nat): Env
    requires LinksDescend(rows) && diffs.Keys == rows.Keys && id in rows
    requires forall k :: k in rows ==> IsDiffOf(rows, k, diffs[k])
    decreases id
  {
    assert IsDiffOf(rows, id, diffs[id]);
    Forwards(if diffs[id].hasPrevious then Replay(rows, diffs, rows[id].previous.value) else map[], diffs[id])
  }

  /** Replaying the chain rebuilds the deployment's own snapshot. */
  lemma {:induction false} ReplayRebuildsSnapshot(rows: Rows, diffs: map<nat, DeploymentDiff>, id: nat)
    requires LinksDescend(rows) && diffs.Keys == rows.Keys && id in rows
    requires forall k :: k in rows ==> IsDiffOf(rows, k, diffs[k])
    ensures Replay(rows, diffs, id) == EnvOf(rows[id])
    ensures Replay(rows, diffs, id) == if rows[id].snapshot.Some? then rows[id].snapshot.value else map[]
    decreases id
  {
    assert IsDiffOf(rows, id, diffs[id]);
    if diffs[id].hasPrevious {
      ReplayRebuildsSnapshot(rows, diffs, rows[id].previous.value);
      ForwardsReachesCurrent(EnvOf(rows[rows[id].previous.value]), EnvOf(rows[id]), diffs[id]);
    } else {
      ForwardsReachesCurrent(map[], EnvOf(rows[id]), diffs[id]);
    }
  }

  class DeploymentRepository {
    var rows: Rows
    var nextId: nat

    ghost predicate Valid()
      reads this
    {
      (forall id :: id in rows ==> id < nextId) && LinksDescend(rows)
    }

    constructor ()
      ensures Valid() && rows == map[]
    {
      rows := map[];
      nextId := 1;
    }

    method Create(app: nat) returns (id: nat)
      requires Valid()
      modifies this
      ensures Valid() && id !in old(rows) && (forall k :: k in old(rows) ==> k < id)
      ensures rows == old(rows)[id := Deployment(app, Pending, None, None, None, None)]
    {
      id := nextId;
      rows := rows[id := Deployment(app, Pending, None, None, None, None)];
      nextId := nextId + 1;
    }

    method UpdateStatus(id: nat, status: DeploymentStatus) returns (r: Result<Deployment, DiffError>)
      requires Valid()
      modifies this`rows
      ensures Valid()
      ensures rows == if id in old(rows) then old(rows)[id := old(rows)[id].(status := status)] else old(rows)
      ensures r == if id in rows then Ok(rows[id]) else Err(DeploymentNotFound)
    {
      if id !in rows {
        return Err(DeploymentNotFound);
      }
      rows := rows[id := rows[id].(status := status)];
      r := Ok(rows[id]);
    }

    /** A row may go with its application; links to it are left dangling. */
    method Delete(id: nat)
      requires Valid()
      modifies this`rows
      ensures Valid() && rows == old(rows) - {id}
    {
      rows := rows - {id};
    }

    method Predecessor(id: nat) returns (p: Option<nat>)
      requires id in rows
      ensures IsPredecessor(rows, id, p)
    {
      p := None;
      var left := rows.Keys;
      while left != {}
        invariant left <= rows.Keys
        invariant p.Some? ==> p.value in rows && p.value < id
                              && rows[p.value].app == rows[id].app && rows[p.value].status == DeploySuccess
        invariant forall q :: q in rows && q !in left && q < id
                              && rows[q].app == rows[id].app && rows[q].status == DeploySuccess ==>
                    p.Some? && q <= p.value
        decreases left
      {
        var q :| q in left;
        if q < id && rows[q].app == rows[id].app && rows[q].status == DeploySuccess && (p == None || p.value < q) {
          p := Some(q);
        }
        left := left - {q};
      }
    }

    /** Stores the snapshot and links the deployment to the one it follows. */
    method UpdateEnvSnapshot(id: nat, snapshot: Env) returns (r: Result<Deployment, DiffError>)
      requires Valid()
      modifies this`rows
      ensures Valid()
      ensures id !in old(rows) ==> r == Err(DeploymentNotFound) && rows == old(rows)
      ensures id in old(rows) ==>
                && r.Ok? && rows == old(rows)[id := r.value]
                && IsPredecessor(old(rows), id, r.value.previous)
                && (r.value.previous.Some? ==>
                      var p := r.value.previous.value;
                      && p in old(rows) && p < id && old(rows)[p].app == old(rows)[id].app
                      && old(rows)[p].status == DeploySuccess)
                && (forall q :: q in old(rows) && q < id && old(rows)[q].app == old(rows)[id].app
                                && old(rows)[q].status == DeploySuccess ==>
                      r.value.previous.Some? && q <= r.value.previous.value)
                && r.value == old(rows)[id].(
                     snapshot := Some(snapshot),
                     previous := r.value.previous,
                     previousCommit := if r.value.previous.Some? then old(rows)[r.value.previous.value].commitHash
                                       else None)
    {
      if id !in rows {
        return Err(DeploymentNotFound);
      }
      var p := Predecessor(id);
      var commit := if p.Some? then rows[p.value].commitHash else None;
      rows := rows[id := rows[id].(snapshot := Some(snapshot), previous := p, previousCommit := commit)];
      r := Ok(rows[id]);
    }

    method GetByID(id: nat) returns (r: Result<Deployment, DiffError>)
      ensures r == if id in rows then Ok(rows[id]) else Err(DeploymentNotFound)
    {
      if id !in rows {
        return Err(DeploymentNotFound);
      }
      r := Ok(rows[id]);
    }

    /** The service's diff of one deployment. */
    method Diff(id: nat) returns (r: Result<DeploymentDiff, DiffError>)
      ensures r.Ok? <==> id in rows
      ensures r.Ok? ==> IsDiffOf(rows, id, r.value)
      ensures r.Ok? ==>
                && r.value.commitTo == rows[id].commitHash
                && (r.value.hasPrevious <==> rows[id].previous.Some? && rows[id].previous.value in rows)
                && (r.value.hasPrevious ==> r.value.commitFrom == rows[rows[id].previous.value].commitHash)
    {
      var d := GetByID(id);
      if d.Err? {
        return Err(DeploymentNotFound);
      }
      var cur := EnvOf(d.value);
      if d.value.previous == None {
        var additions := AllAdded(cur);
        return Ok(DeploymentDiff(false, None, d.value.commitHash, additions, [], []));
      }
      var prev := GetByID(d.value.previous.value);
      if prev.Err? {
        var additions := AllAdded(cur);
        return Ok(DeploymentDiff(false, None, d.value.commitHash, additions, [], []));
      }
      var prevEnv := EnvOf(prev.value);
      var additions, updates := Forward(prevEnv, cur);
      var removals := Removed(prevEnv, cur);
      r := Ok(DeploymentDiff(true, prev.value.commitHash, d.value.commitHash, additions, removals, updates));
    }
  }

  lemma {:induction false} KeysOfHas(entries: seq<Entry>, i: nat)
    requires i < |entries|
    ensures entries[i].key in KeysOf(entries)
  {
    if i < |entries| - 1 {
      KeysOfHas(entries[..|entries| - 1], i);
    }
  }

  /** Appending an entry for a key that has none yet. */
  lemma ListsOneMore(entries: seq<Entry>, keys: set<string>, prev: Env, cur: Env, e: Entry, more: set<string>)
    requires Lists(entries, keys, prev, cur) && e.key !in keys && more == keys + {e.key}
    requires Faithful(e, prev, cur)
    ensures Lists(entries + [e], more, prev, cur)
  {
    assert (entries + [e])[..|entries|] == entries;
    forall i | 0 <= i < |entries|
      ensures entries[i].key != e.key
    {
      KeysOfHas(entries, i);
    }
  }

  method AllAdded(cur: Env) returns (additions: seq<Entry>)
    ensures Lists(additions, cur.Keys, map[], cur)
  {
    additions := [];
    ghost var done: set<string> := {};
    var left := cur.Keys;
    while left != {}
      invariant left + done == cur.Keys && left !! done
      invariant Lists(additions, done, map[], cur)
      decreases left
    {
      var k :| k in left;
      ListsOneMore(additions, done, map[], cur, Entry(k, "", cur[k]), done + {k});
      additions := additions + [Entry(k, "", cur[k])];
      left, done := left - {k}, done + {k};
    }
    assert done == cur.Keys;
  }

  method Forward(prev: Env, cur: Env) returns (additions: seq<Entry>, updates: seq<Entry>)
    ensures Lists(additions, cur.Keys - prev.Keys, prev, cur)
    ensures Lists(updates, Changed(prev, cur), prev, cur)
  {
    additions, updates := [], [];
    ghost var added: set<string>, changed: set<string> := {}, {};
    var left := cur.Keys;
    while left != {}
      invariant left <= cur.Keys
      invariant forall k :: k in added <==> k in cur && k !in prev && k !in left
      invariant forall k :: k in changed <==> k in cur && k in prev && cur[k] != prev[k] && k !in left
      invariant Lists(additions, added, prev, cur)
      invariant Lists(updates, changed, prev, cur)
      decreases left
    {
      var k :| k in left;
      if k !in prev {
        ListsOneMore(additions, added, prev, cur, Entry(k, "", cur[k]), added + {k});
        additions := additions + [Entry(k, "", cur[k])];
        added := added + {k};
      } else if prev[k] != cur[k] {
        ListsOneMore(updates, changed, prev, cur, Entry(k, prev[k], cur[k]), changed + {k});
        updates := updates + [Entry(k, prev[k], cur[k])];
        changed := changed + {k};
      }
      left := left - {k};
    }
    assert added == cur.Keys - prev.Keys && changed == Changed(prev, cur);
  }

  method Removed(prev: Env, cur: Env) returns (removals: seq<Entry>)
    ensures Lists(removals, prev.Keys - cur.Keys, prev, cur)
  {
    removals := [];
    ghost var removed: set<string> := {};
    var left := prev.Keys;
    while left != {}
      invariant left <= prev.Keys
      invariant forall k :: k in removed <==> k in prev && k !in cur && k !in left
      invariant Lists(removals, removed, prev, cur)
      decreases left
    {
      var k :| k in left;
      if k !in cur {
        ListsOneMore(removals, removed, prev, cur, Entry(k, prev[k], ""), removed + {k});
        removals := removals + [Entry(k, prev[k], "")];
        removed := removed + {k};
      }
      left := left - {k};
    }
    assert removed == prev.Keys - cur.Keys;
  }
}
