/** The agent's executor: the health verdict on an application, the gate that polls for it after a deploy, and the
    deploy and rollback pipelines.

  Commands are outcomes: a schedule says which of a pipeline's steps fail, and a world says what each poll finds and how
  long it takes. Times are nanoseconds since the gate was entered.
*/
module Executor {
  import opened Common

  // ---------------------------------------------------------------- the verdict on a set of containers

  datatype AppStatus = Running | Starting | Failed | Unknown

  datatype Container = Container(state: string, health: string, exitCode: int)

  predicate Fails(c: Container) {
    || (c.state == "running" && c.health == "unhealthy")
    || (c.state == "exited" && c.exitCode != 0)
    || c.state == "dead"
  }

  predicate Paused(c: Container) {
    c.state == "paused"
  }

  predicate Up(c: Container) {
    || (c.state == "running" && c.health != "unhealthy" && c.health != "starting")
    || (c.state == "exited" && c.exitCode == 0)
  }

  /** The first container that settles the verdict alone. */
  predicate Settles(cs: seq<Container>, i: int) {
    0 <= i < |cs| && (Fails(cs[i]) || Paused(cs[i])) && forall j :: 0 <= j < i ==> !Fails(cs[j]) && !Paused(cs[j])
  }

  function Health(cs: seq<Container>): AppStatus {
    if exists i | 0 <= i < |cs| :: Settles(cs, i) && Fails(cs[i]) then Failed
    else if cs == [] || exists i | 0 <= i < |cs| :: Settles(cs, i) then Unknown
    else if forall c | c in cs :: Up(c) then Running
    else Starting
  }

  method AggregateContainerHealth(containers: seq<Container>) returns (status: AppStatus)
    ensures status == Health(containers)
  {
    if |containers| == 0 {
      return Unknown;
    }
    var hasStarting := false;
    for i := 0 to |containers|
      invariant forall j :: 0 <= j < i ==> !Fails(containers[j]) && !Paused(containers[j])
      invariant hasStarting <==> exists j :: 0 <= j < i && !Up(containers[j])
    {
      var c := containers[i];
      if c.state == "running" {
        if c.health == "unhealthy" {
          assert Settles(containers, i);
          return Failed;
        }
        if c.health == "starting" {
          hasStarting := true;
        }
      } else if c.state == "restarting" {
        hasStarting := true;
      } else if c.state == "exited" {
        if c.exitCode != 0 {
          assert Settles(containers, i);
          return Failed;
        }
      } else if c.state == "dead" {
        assert Settles(containers, i);
        return Failed;
      } else if c.state == "paused" {
        assert Settles(containers, i) && !Fails(c);
        return Unknown;
      } else {
        hasStarting := true;
      }
    }
    if hasStarting {
      return Starting;
    }
    return Running;
  }

  lemma {:induction false} SomeoneSettles(cs: seq<Container>, i: nat) returns (first: nat)
    requires i < |cs| && (Fails(cs[i]) || Paused(cs[i]))
    ensures first <= i && Settles(cs, first)
  {
    if j :| 0 <= j < i && (Fails(cs[j]) || Paused(cs[j])) {
      first := SomeoneSettles(cs, j);
    } else {
      first := i;
    }
  }

  /** Running says that every container is up, and that there is one. */
  lemma RunningMeansAllUp(cs: seq<Container>)
    ensures Health(cs) == Running <==> cs != [] && forall c :: c in cs ==> Up(c)
  {
    if cs != [] && Health(cs) != Running && (forall c :: c in cs ==> Up(c)) {
      var i :| 0 <= i < |cs| && Settles(cs, i);
      assert cs[i] in cs;
    }
  }

  lemma WorstCases(cs: seq<Container>)
    ensures Health(cs) == Failed ==> exists c :: c in cs && Fails(c)
    ensures (exists c :: c in cs && Fails(c)) && !(exists c :: c in cs && Paused(c)) ==> Health(cs) == Failed
    ensures (exists c :: c in cs && Paused(c)) && !(exists c :: c in cs && Fails(c)) ==> Health(cs) == Unknown
  {
    if c :| c in cs && (Fails(c) || Paused(c)) {
      var i :| 0 <= i < |cs| && cs[i] == c;
      var first := SomeoneSettles(cs, i);
      assert cs[first] in cs;
    }
  }

  /** The verdict on a container that is alone, state by state; without any it is unknown. */
  lemma VerdictOnOne(c: Container)
    ensures Health([]) == Unknown
    ensures Health([c]) == match c.state
                           case "running" =>
                             if c.health == "unhealthy" then Failed
                             else if c.health == "starting" then Starting else Running
                           case "exited" => if c.exitCode == 0 then Running else Failed
                           case "dead" => Failed
                           case "paused" => Unknown
                           case _ => Starting
  {
    assert [c][0] == c && c in [c];
    if Fails(c) || Paused(c) {
      assert Settles([c], 0);
    }
  }

  predicate Reordered(cs: seq<Container>, ds: seq<Container>) {
    multiset(cs) == multiset(ds)
  }

  lemma SameMembers(cs: seq<Container>, ds: seq<Container>)
    requires Reordered(cs, ds)
    ensures forall c :: c in cs <==> c in ds
    ensures cs == [] <==> ds == []
  {
    forall c
      ensures c in cs <==> c in ds
    {
      assert c in multiset(cs) <==> c in multiset(ds);
    }
    assert |multiset(cs)| == |cs| && |multiset(ds)| == |ds|;
  }

  lemma ToFront(cs: seq<Container>, i: nat) returns (ds: seq<Container>)
    requires i < |cs| && (Fails(cs[i]) || Paused(cs[i]))
    ensures Reordered(cs, ds)
    ensures Health(ds) == if Fails(cs[i]) then Failed else Unknown
  {
    ds := [cs[i]] + cs[..i] + cs[i + 1..];
    assert cs == cs[..i] + [cs[i]] + cs[i + 1..];
    assert Settles(ds, 0);
  }

  /** The order of the containers is irrelevant exactly when no failing one competes with a paused one. */
  lemma OrderIsIrrelevantIff(cs: seq<Container>)
    ensures (forall ds :: Reordered(cs, ds) ==> Health(ds) == Health(cs))
            <==> !((exists c :: c in cs && Fails(c)) && (exists c :: c in cs && Paused(c)))
  {
    if c, d :| c in cs && Fails(c) && d in cs && Paused(d) {
      var i :| 0 <= i < |cs| && cs[i] == c;
      var j :| 0 <= j < |cs| && cs[j] == d;
      var failed := ToFront(cs, i);
      var unknown := ToFront(cs, j);
      assert Health(failed) != Health(unknown);
    } else {
      forall ds | Reordered(cs, ds)
        ensures Health(ds) == Health(cs)
      {
        SameMembers(cs, ds);
        WorstCases(cs);
        WorstCases(ds);
        RunningMeansAllUp(cs);
        RunningMeansAllUp(ds);
      }
    }
  }

  // ---------------------------------------------------------------- the health gate

  const MILLISECOND: nat := 1_000_000
  const SLEEP: nat := 500 * MILLISECOND
  const TICK: nat := 3000 * MILLISECOND
  const HEALTH_GATE_TIMEOUT: nat := 60_000 * MILLISECOND

  datatype Output =
    | CommandFailed
    | Unreadable              // empty, or not the listing of any container
    | Listed(cs: seq<Container>)

  /** One poll: how long the command ran, what it printed, whether the job is cancelled while the gate waits, and how
      much longer than it must the gate waits. */
  datatype Poll = Poll(took: nat, output: Output, cancelled: bool, extra: nat)

  type World = nat -> Poll

  datatype GateResult = Ready | Crashed | NotReady | Cancelled

  function Verdict(output: Output): AppStatus {
    if output.Listed? then Health(output.cs) else Unknown
  }

  /** How many of the first n polls ended in a wait for the ticker. */
  function Ticks(world: World, n: nat): nat {
    if n == 0 then 0 else Ticks(world, n - 1) + if world(n - 1).output.CommandFailed? then 0 else 1
  }

  /** The time at which poll n starts. The k-th tick the gate receives is at least the ticker's k-th. */
  function Begin(world: World, n: nat): nat {
    if n == 0 then
      0
    else
      var poll := world(n - 1);
      var ended := Begin(world, n - 1) + poll.took;
      if poll.output.CommandFailed? then ended + SLEEP + poll.extra
      else Max(ended + poll.extra, TICK * Ticks(world, n))
  }

  function Max(a: nat, b: nat): nat {
    if a < b then b else a
  }

  /** What poll n makes the gate return, if anything. */
  function Decision(world: World, timeout: nat, n: nat): Option<GateResult> {
    var poll := world(n);
    if Verdict(poll.output) == Running then Some(Ready)
    else if Verdict(poll.output) == Failed then Some(Crashed)
    else if Begin(world, n) + poll.took > timeout then Some(NotReady)
    else if !poll.output.CommandFailed? && poll.cancelled then Some(Cancelled)
    else None
  }

  predicate Undecided(world: World, timeout: nat, n: nat) {
    forall i: nat :: i < n ==> Decision(world, timeout, i) == None
  }

  lemma {:induction false} WaitsTakeTime(world: World, n: nat)
    ensures Ticks(world, n) <= n
    ensures Begin(world, n) >= TICK * Ticks(world, n)
    ensures Begin(world, n) >= SLEEP * (n - Ticks(world, n))
  {
    if n > 0 {
      WaitsTakeTime(world, n - 1);
    }
  }

  lemma FitsInto(unit: nat, count: nat, total: nat)
    requires unit > 0 && unit * count <= total
    ensures count <= total / unit
  {
    var whole := total / unit;
    assert total < unit * (whole + 1);
    assert unit * count < unit * (whole + 1);
  }

  /** Whatever the polls find and however they mix, there are only so many of them. */
  lemma UndecidedPollsAreBounded(world: World, timeout: nat, n: nat)
    requires Undecided(world, timeout, n)
    ensures n <= timeout / SLEEP + timeout / TICK + 1
  {
    if n > 0 {
      WaitsTakeTime(world, n - 1);
      assert Decision(world, timeout, n - 1) == None;
      FitsInto(TICK, Ticks(world, n - 1), timeout);
      FitsInto(SLEEP, n - 1 - Ticks(world, n - 1), timeout);
    }
  }

  /** The time at which poll n's command has ended. */
  function Ended(world: World, n: nat): nat {
    Begin(world, n) + world(n).took
  }

  /** A poll that is neither up nor failed, nor late, nor cancelled while the gate waits. */
  predicate LeavesOpen(world: World, timeout: nat, n: nat) {
    && Verdict(world(n).output) != Running && Verdict(world(n).output) != Failed
    && Ended(world, n) <= timeout
    && (world(n).output == CommandFailed || !world(n).cancelled)
  }

  /** A poll that lists containers, all of them up. */
  predicate AllUp(output: Output) {
    output.Listed? && output.cs != [] && forall c :: c in output.cs ==> Up(c)
  }

  /** What the commands took and the gate idled beyond its own waits, up to poll n. */
  function Spent(world: World, n: nat): nat {
    if n == 0 then 0 else Spent(world, n - 1) + world(n - 1).took + world(n - 1).extra
  }

  /** The gate adds to that no more than half a second for each failing poll and three for each other one. */
  lemma {:induction false} WaitsAreShort(world: World, n: nat)
    ensures Begin(world, n) <= Spent(world, n) + 500_000_000 * (n - Ticks(world, n)) + 3_000_000_000 * Ticks(world, n)
  {
    WaitsTakeTime(world, n);
    if n > 0 {
      WaitsAreShort(world, n - 1);
      WaitsTakeTime(world, n - 1);
    }
  }

  lemma OpenIsUndecided(world: World, timeout: nat, n: nat)
    ensures LeavesOpen(world, timeout, n) <==> Decision(world, timeout, n) == None
  {
  }

  /** The gate says ready at the first poll that finds all containers up. */
  lemma FirstUpDecides(world: World, timeout: nat, k: nat, result: GateResult, polls: nat)
    requires AllUp(world(k).output) && forall i: nat :: i < k ==> LeavesOpen(world, timeout, i)
    requires polls > 0 && Undecided(world, timeout, polls - 1) && Decision(world, timeout, polls - 1) == Some(result)
    ensures result == Ready && polls == k + 1
  {
    RunningMeansAllUp(world(k).output.cs);
    assert Decision(world, timeout, k) == Some(Ready);
    forall i: nat | i < k
      ensures Decision(world, timeout, i) == None
    {
      OpenIsUndecided(world, timeout, i);
    }
  }

  method WaitForAppRunning(world: World, timeout: nat) returns (result: GateResult, polls: nat)
    ensures 1 <= polls <= timeout / SLEEP + timeout / TICK + 2
    ensures Undecided(world, timeout, polls - 1) && Decision(world, timeout, polls - 1) == Some(result)
    ensures result == Ready <==> Verdict(world(polls - 1).output) == Running
    ensures result == Crashed <==> Verdict(world(polls - 1).output) == Failed
    ensures result == NotReady ==> Ended(world, polls - 1) > timeout
    ensures result == Cancelled ==> Ended(world, polls - 1) <= timeout && world(polls - 1).cancelled
    ensures forall i: nat :: i < polls - 1 ==> LeavesOpen(world, timeout, i)
  {
    var now, ticks: nat := 0, 0;
    polls := 0;
    while true
      invariant now == Begin(world, polls) && ticks == Ticks(world, polls)
      invariant Undecided(world, timeout, polls)
      invariant forall i: nat :: i < polls ==> LeavesOpen(world, timeout, i)
      decreases timeout / SLEEP + timeout / TICK + 2 - polls
    {
      UndecidedPollsAreBounded(world, timeout, polls);
      var poll := world(polls);
      polls := polls + 1;
      now := now + poll.took;
      if poll.output.CommandFailed? {
        if now > timeout {
          return NotReady, polls;
        }
        now := now + SLEEP + poll.extra;
      } else {
        if poll.output.Listed? {
          var status := AggregateContainerHealth(poll.output.cs);
          if status == Running {
            return Ready, polls;
          } else if status == Failed {
            return Crashed, polls;
          }
        }
        if now > timeout {
          return NotReady, polls;
        }
        if poll.cancelled {
          return Cancelled, polls;
        }
        ticks := ticks + 1;
        now := Max(now + poll.extra, TICK * ticks);
      }
      UndecidedPollsAreBounded(world, timeout, polls);
    }
  }

  /** An application that is up at poll k, with no crash or cancellation seen before and all the waiting within the
      time, passes the gate at that poll. */
  lemma UpInTimeIsReady(world: World, timeout: nat, k: nat, result: GateResult, polls: nat)
    requires AllUp(world(k).output)
    requires forall i: nat :: i < k ==>
               && Verdict(world(i).output) !in {Failed, Running}
               && (world(i).output == CommandFailed || !world(i).cancelled)
    requires Spent(world, k) + 500_000_000 * (k - Ticks(world, k)) + 3_000_000_000 * Ticks(world, k) <= timeout
    requires polls > 0 && Undecided(world, timeout, polls - 1) && Decision(world, timeout, polls - 1) == Some(result)
    ensures result == Ready && polls == k + 1
  {
    forall i: nat | i < k
      ensures LeavesOpen(world, timeout, i)
    {
      EndsBeforeNext(world, i, k);
      WaitsAreShort(world, k);
    }
    FirstUpDecides(world, timeout, k, result, polls);
  }

  lemma {:induction false} EndsBeforeNext(world: World, i: nat, k: nat)
    requires i < k
    ensures Ended(world, i) <= Begin(world, k)
  {
    if i < k - 1 {
      EndsBeforeNext(world, i, k - 1);
    }
  }

  /** The gate's last poll, when it returns ready: containers that are all up, and no crash seen before. */
  ghost predicate EndsReady(world: World, polls: nat) {
    && polls > 0
    && world(polls - 1).output.Listed?
    && world(polls - 1).output.cs != []
    && (forall c :: c in world(polls - 1).output.cs ==> Up(c))
    && forall i: nat :: i < polls - 1 ==> Verdict(world(i).output) !in {Failed, Running}
  }

  lemma ReadyMeansAllUp(world: World, timeout: nat, polls: nat)
    requires polls > 0 && Undecided(world, timeout, polls - 1)
    ensures Decision(world, timeout, polls - 1) == Some(Ready) <==> EndsReady(world, polls)
  {
    if world(polls - 1).output.Listed? {
      RunningMeansAllUp(world(polls - 1).output.cs);
    }
    forall i: nat | i < polls - 1
      ensures Verdict(world(i).output) !in {Failed, Running}
    {
      assert Decision(world, timeout, i) == None;
    }
  }

  // ---------------------------------------------------------------- the pipelines

  type Env = map<string, string>

  datatype DeployPayload = DeployPayload(appKey: string, envVars: Env)

  datatype RollbackPayload = RollbackPayload(appKey: string, imageTag: string, envVars: Env)

  datatype Step =
    | MakeWorkDir
    | CloneOrPull
    | ReadCommit
    | ReadMessage
    | ReportCommit(hash: string)
    | FindComposeFile
    | WriteEnv(env: Env)
    | Compose(args: seq<string>)

  datatype JobResult = Rejected | Stopped | Panicked | Gated(gate: GateResult)

  const BUILD := ["build"]
  const UP := ["up", "-d", "--force-recreate"]

  /** Which steps fail, by position; reporting the commit never does. */
  type Schedule = nat -> bool

  predicate FailsAt(plan: seq<Step>, fails: Schedule, i: nat)
    requires i < |plan|
  {
    !plan[i].ReportCommit? && fails(i)
  }

  function ImageOf(appKey: string, commit: string): string {
    appKey + ":" + commit
  }

  function WithImage(user: Env, image: string, containerName: string): Env {
    user["APP_IMAGE" := image]["APP_CONTAINER_NAME" := containerName]
  }

  predicate CannotReport(deploymentID: Option<nat>, commit: string) {
    deploymentID.None? || |commit| < 8
  }

  function DeployPlan(payload: DeployPayload, deploymentID: Option<nat>, commit: string): seq<Step> {
    if CannotReport(deploymentID, commit) then
      [MakeWorkDir, CloneOrPull, ReadCommit, ReadMessage]
    else
      var report := ReportCommit(commit[..8]);
      var merged := WriteEnv(WithImage(payload.envVars, ImageOf(payload.appKey, commit), payload.appKey));
      if payload.envVars == map[] then
        [MakeWorkDir, CloneOrPull, ReadCommit, ReadMessage, report, FindComposeFile,
         merged, FindComposeFile, Compose(BUILD), FindComposeFile, Compose(UP)]
      else
        [MakeWorkDir, CloneOrPull, ReadCommit, ReadMessage, report, FindComposeFile, WriteEnv(payload.envVars),
         merged, FindComposeFile, Compose(BUILD), FindComposeFile, Compose(UP)]
  }

  function RollbackPlan(payload: RollbackPayload): seq<Step> {
    [WriteEnv(WithImage(payload.envVars, payload.imageTag, payload.appKey)), FindComposeFile, Compose(UP)]
  }

  ghost predicate Passes(plan: seq<Step>, fails: Schedule, n: nat) {
    n <= |plan| && forall i: nat :: i < n ==> !FailsAt(plan, fails, i)
  }

  /** A pipeline goes through its plan until the first step that fails. */
  ghost predicate Follows(trace: seq<Step>, plan: seq<Step>, fails: Schedule, complete: bool) {
    if complete then
      trace == plan && Passes(plan, fails, |plan|)
    else
      && 0 < |trace| <= |plan| && trace == plan[..|trace|]
      && Passes(plan, fails, |trace| - 1) && FailsAt(plan, fails, |trace| - 1)
  }

  /** One more step; ok says whether it succeeded. */
  method Perform(step: Step, fails: Schedule, trace: seq<Step>, ghost plan: seq<Step>)
    returns (ok: bool, longer: seq<Step>)
    requires |trace| < |plan| && step == plan[|trace|] && trace == plan[..|trace|]
    requires Passes(plan, fails, |trace|)
    ensures |longer| == |trace| + 1 && longer == plan[..|longer|]
    ensures if ok then Passes(plan, fails, |longer|) else Follows(longer, plan, fails, false)
    ensures step.ReportCommit? ==> ok
  {
    longer := trace + [step];
    ok := step.ReportCommit? || !fails(|trace|);
  }

  /** A docker compose command: the compose file is looked up each time. */
  method ComposeCmd(args: seq<string>, fails: Schedule, trace: seq<Step>, ghost plan: seq<Step>)
    returns (ok: bool, longer: seq<Step>)
    requires |trace| + 1 < |plan| && plan[|trace|] == FindComposeFile && plan[|trace| + 1] == Compose(args)
    requires trace == plan[..|trace|] && Passes(plan, fails, |trace|)
    ensures ok ==> |longer| == |trace| + 2 && longer == plan[..|longer|] && Passes(plan, fails, |longer|)
    ensures !ok ==> Follows(longer, plan, fails, false)
  {
    ok, longer := Perform(FindComposeFile, fails, trace, plan);
    if ok {
      ok, longer := Perform(Compose(args), fails, longer, plan);
    }
  }

  /** The first part of a deploy: the work directory, the repository, and what its head is. */
  method FetchSources(fails: Schedule, ghost plan: seq<Step>) returns (ok: bool, trace: seq<Step>)
    requires |plan| >= 4 && plan[..4] == [MakeWorkDir, CloneOrPull, ReadCommit, ReadMessage]
    ensures ok ==> |trace| == 4 && trace == plan[..4] && Passes(plan, fails, 4)
    ensures !ok ==> Follows(trace, plan, fails, false)
  {
    assert forall i :: 0 <= i < 4 ==> plan[i] == plan[..4][i];
    trace := [];
    ok, trace := Perform(MakeWorkDir, fails, trace, plan);
    if ok {
      ok, trace := Perform(CloneOrPull, fails, trace, plan);
    }
    if ok {
      ok, trace := Perform(ReadCommit, fails, trace, plan);
    }
    if ok {
      ok, trace := Perform(ReadMessage, fails, trace, plan);
    }
  }

  /** The last part: the final environment, the build under it, and the recreation. */
  method BuildAndRecreate(env: Env, fails: Schedule, before: seq<Step>, ghost plan: seq<Step>)
    returns (ok: bool, trace: seq<Step>)
    requires |plan| == |before| + 5 && before == plan[..|before|] && Passes(plan, fails, |before|)
    requires plan[|before|..] == [WriteEnv(env), FindComposeFile, Compose(BUILD), FindComposeFile, Compose(UP)]
    ensures Follows(trace, plan, fails, ok)
  {
    assert forall i :: 0 <= i < 5 ==> plan[|before| + i] == plan[|before|..][i];
    ok, trace := Perform(WriteEnv(env), fails, before, plan);
    if ok {
      ok, trace := ComposeCmd(BUILD, fails, trace, plan);
    }
    if ok {
      ok, trace := ComposeCmd(UP, fails, trace, plan);
    }
  }

  /** The gate decided after that many polls. */
  predicate GateSays(world: World, polls: nat, gate: GateResult) {
    && 1 <= polls <= HEALTH_GATE_TIMEOUT / SLEEP + HEALTH_GATE_TIMEOUT / TICK + 2
    && Undecided(world, HEALTH_GATE_TIMEOUT, polls - 1)
    && Decision(world, HEALTH_GATE_TIMEOUT, polls - 1) == Some(gate)
  }

  /** The gate of a deploy or rollback: a minute, within which nothing but a crash, a cancellation or all containers up
      ends it. */
  lemma GateTakesAMinute(world: World, polls: nat, gate: GateResult)
    requires GateSays(world, polls, gate)
    ensures polls > 0 && forall i: nat :: i < polls - 1 ==> LeavesOpen(world, 60_000_000_000, i)
    ensures gate == Ready <==> EndsReady(world, polls)
    ensures gate == Crashed <==> Verdict(world(polls - 1).output) == Failed
    ensures gate == NotReady ==> Ended(world, polls - 1) > 60_000_000_000
    ensures gate == Cancelled ==> Ended(world, polls - 1) <= 60_000_000_000 && world(polls - 1).cancelled
  {
    ReadyMeansAllUp(world, HEALTH_GATE_TIMEOUT, polls);
    forall i: nat | i < polls - 1
      ensures LeavesOpen(world, 60_000_000_000, i)
    {
      OpenIsUndecided(world, HEALTH_GATE_TIMEOUT, i);
    }
  }

  method DeployApp(payload: DeployPayload, deploymentID: Option<nat>, commit: string, fails: Schedule, world: World)
    returns (result: JobResult, trace: seq<Step>, polls: nat)
    ensures Follows(trace, DeployPlan(payload, deploymentID, commit), fails, result != Stopped)
    ensures result != Rejected
    ensures result != Stopped ==> (result == Panicked <==> deploymentID.None? || |commit| < 8)
    ensures result.Gated? ==> GateSays(world, polls, result.gate)
    ensures !result.Gated? ==> polls == 0
  {
    ghost var plan := DeployPlan(payload, deploymentID, commit);
    trace, polls := [], 0;
    var ok;
    ok, trace := FetchSources(fails, plan);
    if !ok {
      return Stopped, trace, 0;
    }
    if deploymentID.None? || |commit| < 8 {
      return Panicked, trace, 0;
    }
    ok, trace := Perform(ReportCommit(commit[..8]), fails, trace, plan);
    ok, trace := Perform(FindComposeFile, fails, trace, plan);
    if !ok {
      return Stopped, trace, 0;
    }
    if |payload.envVars| > 0 {
      ok, trace := Perform(WriteEnv(payload.envVars), fails, trace, plan);
      if !ok {
        return Stopped, trace, 0;
      }
    }
    var appImage := payload.appKey + ":" + commit;
    var envVars := payload.envVars["APP_IMAGE" := appImage]["APP_CONTAINER_NAME" := payload.appKey];
    ok, trace := BuildAndRecreate(envVars, fails, trace, plan);
    if !ok {
      return Stopped, trace, 0;
    }
    var gate;
    gate, polls := WaitForAppRunning(world, HEALTH_GATE_TIMEOUT);
    return Gated(gate), trace, polls;
  }

  method RollbackApp(payload: RollbackPayload, fails: Schedule, world: World)
    returns (result: JobResult, trace: seq<Step>, polls: nat)
    ensures result == Rejected <==> payload.imageTag == ""
    ensures result == Rejected ==> trace == []
    ensures result != Rejected ==> Follows(trace, RollbackPlan(payload), fails, result != Stopped) && result != Panicked
    ensures result.Gated? ==> GateSays(world, polls, result.gate)
    ensures !result.Gated? ==> polls == 0
  {
    trace, polls := [], 0;
    if payload.imageTag == "" {
      return Rejected, trace, 0;
    }
    ghost var plan := RollbackPlan(payload);
    var envVars := payload.envVars["APP_IMAGE" := payload.imageTag]["APP_CONTAINER_NAME" := payload.appKey];
    var ok;
    ok, trace := Perform(WriteEnv(envVars), fails, trace, plan);
    if !ok {
      return Stopped, trace, 0;
    }
    ok, trace := ComposeCmd(UP, fails, trace, plan);
    if !ok {
      return Stopped, trace, 0;
    }
    var gate;
    gate, polls := WaitForAppRunning(world, HEALTH_GATE_TIMEOUT);
    return Gated(gate), trace, polls;
  }

  // ---------------------------------------------------------------- what holds of every trace

  /** What the .env file holds before step n: the last environment written without failing. */
  function EnvAt(trace: seq<Step>, fails: Schedule, n: nat): Option<Env>
    requires n <= |trace|
  {
    if n == 0 then None
    else if trace[n - 1].WriteEnv? && !fails(n - 1) then Some(trace[n - 1].env)
    else EnvAt(trace, fails, n - 1)
  }

  /** Step b built the images, and the environment it and the step n both saw is that one. */
  ghost predicate BuiltBefore(trace: seq<Step>, fails: Schedule, b: nat, n: nat, env: Env) {
    && b < n <= |trace|
    && trace[b] == Compose(BUILD) && !fails(b)
    && EnvAt(trace, fails, b) == Some(env) && EnvAt(trace, fails, n) == Some(env)
  }

  lemma EnvStays(trace: seq<Step>, fails: Schedule, from: nat, to: nat)
    requires from <= to <= |trace|
    requires forall i :: from <= i < to ==> !trace[i].WriteEnv?
    ensures EnvAt(trace, fails, to) == EnvAt(trace, fails, from)
  {
    if from < to {
      EnvStays(trace, fails, from, to - 1);
    }
  }

  /** Over every schedule: the stack is only ever recreated, never taken down, and only from images that were built in
      this very run under the final environment, which no later step changes. */
  lemma UpOnlyAfterBuild(payload: DeployPayload, deploymentID: Option<nat>, commit: string, fails: Schedule,
                         trace: seq<Step>, complete: bool, n: nat)
    requires Follows(trace, DeployPlan(payload, deploymentID, commit), fails, complete)
    requires n < |trace| && trace[n].Compose? && trace[n].args != BUILD
    ensures trace[n].args == UP
    ensures exists b :: BuiltBefore(trace, fails, b, n,
                                    WithImage(payload.envVars, ImageOf(payload.appKey, commit), payload.appKey))
  {
    var plan := DeployPlan(payload, deploymentID, commit);
    assert n == |plan| - 1 by {
      assert forall i :: 0 <= i < |plan| && plan[i].Compose? ==> i == |plan| - 1 || plan[i].args == BUILD;
    }
    assert trace == plan;
    assert !FailsAt(trace, fails, n - 2);
    assert !FailsAt(trace, fails, n - 4);
    assert EnvAt(trace, fails, n - 3) == Some(trace[n - 4].env);
    EnvStays(trace, fails, n - 3, n - 2);
    EnvStays(trace, fails, n - 3, n);
    assert BuiltBefore(trace, fails, n - 2, n, trace[n - 4].env);
  }

  lemma RollbackRecreatesUnderItsTag(payload: RollbackPayload, fails: Schedule, trace: seq<Step>, complete: bool,
                                     n: nat)
    requires Follows(trace, RollbackPlan(payload), fails, complete)
    requires n < |trace| && trace[n].Compose?
    ensures trace[n].args == UP
    ensures EnvAt(trace, fails, n) == Some(WithImage(payload.envVars, payload.imageTag, payload.appKey))
  {
    assert n == 2 && trace == RollbackPlan(payload);
    assert !FailsAt(trace, fails, 0);
    EnvStays(trace, fails, 1, 2);
  }

  /** The pipeline's own two variables win over the user's, and every other one is the user's. */
  lemma ImageOverrides(user: Env, image: string, containerName: string, key: string)
    ensures var env := WithImage(user, image, containerName);
            && (key in env <==> key in user || key in {"APP_IMAGE", "APP_CONTAINER_NAME"})
            && (key in env ==> env[key] == if key == "APP_IMAGE" then image
                                           else if key == "APP_CONTAINER_NAME" then containerName
                                           else user[key])
  {
    assert |"APP_IMAGE"| != |"APP_CONTAINER_NAME"|;
  }

  // ---------------------------------------------------------------- the tags that runs have built

  /** A deploy or a rollback as the agent ran it. */
  datatype AppRun =
    | DeployRun(deploy: DeployPayload, deploymentID: Option<nat>, commit: string, fails: Schedule, trace: seq<Step>,
                complete: bool)
    | RollbackRun(rollback: RollbackPayload, fails: Schedule, trace: seq<Step>, complete: bool)
  {
    function Plan(): seq<Step> {
      if DeployRun? then DeployPlan(deploy, deploymentID, commit) else RollbackPlan(rollback)
    }

    ghost predicate Valid() {
      Follows(trace, Plan(), fails, complete)
    }

    /** Step b built the images. */
    predicate BuildsAt(b: nat) {
      b < |trace| && trace[b] == Compose(BUILD) && !fails(b)
    }

    /** The build put the application's image under this tag. */
    predicate TagsAt(b: nat, tag: string) {
      BuildsAt(b) && EnvAt(trace, fails, b).Some? && ImageIn(EnvAt(trace, fails, b).value) == Some(tag)
    }
  }

  /** Whatever fails, no deploy or rollback takes the stack down: all they ever ask compose for is a build, by a deploy,
      and a recreation, each right after the compose file was looked up. */
  lemma NothingIsTakenDown(r: AppRun, n: nat)
    requires r.Valid() && n < |r.trace| && r.trace[n].Compose?
    ensures r.trace[n].args == ["build"] || r.trace[n].args == ["up", "-d", "--force-recreate"]
    ensures r.trace[n].args[0] != "down" && (r.RollbackRun? ==> r.trace[n].args[0] == "up")
    ensures n > 0 && r.trace[n - 1] == FindComposeFile
  {
    var plan := r.Plan();
    assert r.trace[n] == plan[n] && (n > 0 ==> r.trace[n - 1] == plan[n - 1]);
    assert |"build"| != |"down"| && |"up"| != |"down"|;
  }

  /** The hash a deploy reports is the first eight characters of the one it builds. */
  lemma ReportIsPrefix(r: AppRun, n: nat)
    requires r.Valid() && n < |r.trace| && r.trace[n].ReportCommit?
    ensures r.DeployRun? && |r.trace[n].hash| == 8 && r.trace[n].hash == r.commit[..8]
  {
    assert r.trace[n] == r.Plan()[n];
  }

  lemma NoStepFailed(r: AppRun)
    requires r.Valid() && r.complete
    ensures forall i: nat :: i < |r.trace| && !r.trace[i].ReportCommit? ==> !r.fails(i)
  {
    forall i: nat | i < |r.trace| && !r.trace[i].ReportCommit?
      ensures !r.fails(i)
    {
      assert !FailsAt(r.trace, r.fails, i);
    }
  }

  /** A deploy that came as far as the gate has done all of this, in this order, and none of it failed. */
  lemma GatedDeployDidAll(r: AppRun)
    requires r.Valid() && r.DeployRun? && r.complete && r.deploymentID.Some? && |r.commit| >= 8
    ensures var user, n := r.deploy.envVars, |r.trace|;
            && n >= 11
            && r.trace[..5] == [MakeWorkDir, CloneOrPull, ReadCommit, ReadMessage, ReportCommit(r.commit[..8])]
            && (user != map[] ==> r.trace[n - 6] == WriteEnv(user))
            && r.trace[n - 5] == WriteEnv(user["APP_IMAGE" := r.deploy.appKey + ":" + r.commit]
                                              ["APP_CONTAINER_NAME" := r.deploy.appKey])
            && r.trace[n - 3] == Compose(["build"])
            && r.trace[n - 1] == Compose(["up", "-d", "--force-recreate"])
            && forall i: nat :: i < n && !r.trace[i].ReportCommit? ==> !r.fails(i)
  {
    assert r.trace == r.Plan();
    NoStepFailed(r);
  }

  /** And a rollback has written the environment with its tag and recreated the stack. */
  lemma GatedRollbackDidAll(r: AppRun)
    requires r.Valid() && r.RollbackRun? && r.complete
    ensures |r.trace| == 3 && r.trace[2] == Compose(["up", "-d", "--force-recreate"])
    ensures r.trace[0] == WriteEnv(r.rollback.envVars["APP_IMAGE" := r.rollback.imageTag]
                                                     ["APP_CONTAINER_NAME" := r.rollback.appKey])
    ensures forall i: nat :: i < 3 ==> !r.fails(i)
  {
    NoStepFailed(r);
  }

  function ImageIn(env: Env): Option<string> {
    if "APP_IMAGE" in env then Some(env["APP_IMAGE"]) else None
  }

  lemma MergedImage(user: Env, image: string, containerName: string)
    ensures ImageIn(WithImage(user, image, containerName)) == Some(image)
  {
    ImageOverrides(user, image, containerName, "APP_IMAGE");
  }

  /** The steps of a plan that end in the build. */
  lemma BuildInPlan(payload: DeployPayload, deploymentID: Option<nat>, commit: string, b: nat)
    requires var plan := DeployPlan(payload, deploymentID, commit); b < |plan| && plan[b] == Compose(BUILD)
    ensures var plan := DeployPlan(payload, deploymentID, commit);
            && b >= 2 && plan[b - 1] == FindComposeFile
            && plan[b - 2] == WriteEnv(WithImage(payload.envVars, ImageOf(payload.appKey, commit), payload.appKey))
  {
    var plan := DeployPlan(payload, deploymentID, commit);
    assert b == |plan| - 3;
  }

  /** A build runs under the environment written just before it. */
  lemma BuildSeesMergedEnv(r: AppRun, b: nat)
    requires r.Valid() && r.BuildsAt(b)
    ensures r.DeployRun?
    ensures EnvAt(r.trace, r.fails, b)
            == Some(WithImage(r.deploy.envVars, ImageOf(r.deploy.appKey, r.commit), r.deploy.appKey))
  {
    var plan := r.Plan();
    assert r.trace[b] == plan[b];
    assert r.DeployRun?;
    BuildInPlan(r.deploy, r.deploymentID, r.commit, b);
    assert r.trace[b - 2] == plan[b - 2] && r.trace[b - 1] == plan[b - 1];
    assert !FailsAt(plan, r.fails, b - 2);
    EnvStays(r.trace, r.fails, b - 1, b);
  }

  /** Some run of the history built the images under this tag. */
  ghost predicate TagBuilt(history: seq<AppRun>, tag: string) {
    exists i, b: nat :: 0 <= i < |history| && history[i].TagsAt(b, tag)
  }

  /** Some deploy of the application built the images, and this was its whole hash. */
  ghost predicate HashBuilt(history: seq<AppRun>, appKey: string, hash: string) {
    exists i, b: nat ::
      0 <= i < |history| && history[i].BuildsAt(b) && history[i].DeployRun?
      && history[i].deploy.appKey == appKey && history[i].commit == hash
  }

  /** Every run went as its plan and its failures say, and what git calls a commit holds no colon. */
  ghost predicate ValidHistory(history: seq<AppRun>) {
    forall i :: 0 <= i < |history| ==> history[i].Valid() && (history[i].DeployRun? ==> ':' !in history[i].commit)
  }

  /** The colon behind the longer key stands in the other's hash. */
  lemma LongerKeyMeetsColon(k1: string, h1: string, k2: string, h2: string)
    requires ImageOf(k1, h1) == ImageOf(k2, h2)
    ensures |k1| < |k2| ==> ':' in h1
  {
    var tag := ImageOf(k1, h1);
    assert tag[|k2|] == ':';
    if |k1| < |k2| {
      assert h1[|k2| - |k1| - 1] == tag[|k2|];
    }
  }

  lemma TagsAreDistinct(k1: string, h1: string, k2: string, h2: string)
    requires ':' !in h1 && ':' !in h2
    ensures ImageOf(k1, h1) == ImageOf(k2, h2) <==> k1 == k2 && h1 == h2
  {
    if ImageOf(k1, h1) == ImageOf(k2, h2) {
      LongerKeyMeetsColon(k1, h1, k2, h2);
      LongerKeyMeetsColon(k2, h2, k1, h1);
      assert k1 == ImageOf(k1, h1)[..|k1|] && h1 == ImageOf(k1, h1)[|k1| + 1..];
      assert k2 == ImageOf(k2, h2)[..|k2|] && h2 == ImageOf(k2, h2)[|k2| + 1..];
    }
  }

  lemma BuildTagsIff(r: AppRun, b: nat, appKey: string, hash: string)
    requires r.Valid() && r.BuildsAt(b) && ':' !in hash && (r.DeployRun? ==> ':' !in r.commit)
    ensures r.TagsAt(b, ImageOf(appKey, hash)) <==> r.DeployRun? && r.deploy.appKey == appKey && r.commit == hash
  {
    BuildSeesMergedEnv(r, b);
    MergedImage(r.deploy.envVars, ImageOf(r.deploy.appKey, r.commit), r.deploy.appKey);
    TagsAreDistinct(r.deploy.appKey, r.commit, appKey, hash);
  }

  /** After any history of deploys and rollbacks, the tag made of an application's key and a reported hash is among the
      tags built exactly when a build of that application had the reported string as its whole hash. */
  lemma RollbackTagExistsIff(history: seq<AppRun>, appKey: string, reported: string)
    requires ValidHistory(history) && ':' !in reported
    ensures TagBuilt(history, ImageOf(appKey, reported)) <==> HashBuilt(history, appKey, reported)
  {
    forall i, b: nat | 0 <= i < |history| && history[i].BuildsAt(b)
      ensures history[i].TagsAt(b, ImageOf(appKey, reported))
              <==> history[i].DeployRun? && history[i].deploy.appKey == appKey && history[i].commit == reported
    {
      BuildTagsIff(history[i], b, appKey, reported);
    }
  }

  /** Where no deploy had a hash of just the reported length, no rollback finds the tag made of what a deploy
      reported. */
  lemma LongHashesAreNotFound(history: seq<AppRun>, k: nat, reported: string)
    requires ValidHistory(history) && k < |history| && ReportCommit(reported) in history[k].trace
    requires forall i :: 0 <= i < |history| && history[i].DeployRun? ==> |history[i].commit| > 8
    ensures history[k].DeployRun? && !TagBuilt(history, history[k].deploy.appKey + ":" + reported)
  {
    var n: nat :| n < |history[k].trace| && history[k].trace[n] == ReportCommit(reported);
    ReportIsPrefix(history[k], n);
    RollbackTagExistsIff(history, history[k].deploy.appKey, reported);
  }

  /** The tag a rollback derives from the hash the deploy reported names the image the deploy built exactly when the
      hash is no longer than what is reported. */
  lemma RollbackTagIsBuiltTagIff(appKey: string, commit: string)
    requires |commit| >= 8
    ensures ImageOf(appKey, commit[..8]) == ImageOf(appKey, commit) <==> |commit| == 8
  {
    assert |ImageOf(appKey, commit)| == |appKey| + 1 + |commit|;
    assert |commit| == 8 ==> commit[..8] == commit;
  }
}
