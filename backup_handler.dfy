/**
 * internal/cases/backup/handler.go: the backup use case. Every job runs through the health
 * signal and hook middlewares around `doJob`; a backup job initialises its repository if
 * needed, backs up, checks and forgets, a copy job does the same around a copy; failures are
 * collected per job name and do not stop the batch.
 */
module BackupHandler {
  import opened Wrappers
  import opened RunContext
  import opened Entity
  import opened Strings
  import opened World
  import opened HandlerChain
  import opened BackupMw
  import opened JobErrors
  import Restic

  // executeHooks.

  /** The error of a failing hook: `hook failed "<hook>" [exit code N]: <err>`. */
  function HookFailureText(hook: string, exitCode: int, cause: string): string {
    "hook failed \"" + hook + "\" [exit code " + Itoa(exitCode) + "]: " + cause
  }

  /** The shell invocation of one hook: `sh -c <hook>` in a context tagged "hooks". */
  function HookInvocation(ctx: Ctx, hook: string): Invocation {
    Invocation("sh", ["-c", hook], WithSource(ctx, "hooks"))
  }

  /** One hook: run it, and on failure report its text and exit code. */
  function HookStep(o: Oracle, ctx: Ctx): Step<string> {
    (hook: string, t: Trace) =>
      var run := World.Exec(o, t, HookInvocation(ctx, hook));
      if run.1.error.Failed? then (run.0, Failed(HookFailureText(hook, run.1.exitCode, run.1.error.msg)))
      else (run.0, Ok)
  }

  /**
   * A hook step runs exactly its hook and fails exactly when the shell reported an error,
   * with a text naming the hook and the exit code and ending with the shell's error.
   */
  lemma HookStepRuns(o: Oracle, ctx: Ctx, hook: string, t: Trace)
    ensures var r := HookStep(o, ctx)(hook, t);
      var res := o.run(t, HookInvocation(ctx, hook));
      r.0 == t + [Ran(HookInvocation(ctx, hook), res)]
      && (r.1.Failed? <==> res.error.Failed?)
      && (r.1.Failed? ==>
            var head := "hook failed \"" + hook + "\" [exit code " + Itoa(res.exitCode) + "]: ";
            |r.1.msg| == |head| + |res.error.msg| && r.1.msg[..|head|] == head
            && r.1.msg[|head|..] == res.error.msg)
  {
    var res := o.run(t, HookInvocation(ctx, hook));
    if res.error.Failed? {
      var head := "hook failed \"" + hook + "\" [exit code " + Itoa(res.exitCode) + "]: ";
      assert HookFailureText(hook, res.exitCode, res.error.msg) == head + res.error.msg;
    }
  }

  /** executeHooks as a hookExecutor: the hooks in order, stopping at the first failure. */
  function HookRunner(o: Oracle): HookExecutor {
    (ctx: Ctx, hooks: seq<string>, t: Trace) => RunAll(HookStep(o, ctx), hooks, t)
  }

  /** executeHooks: the loop with its early return, proved to be the sequential run. */
  method ExecuteHooks(o: Oracle, ctx: Ctx, hooks: seq<string>, t: Trace) returns (tr: Trace, err: Status)
    ensures (tr, err) == RunAll(HookStep(o, ctx), hooks, t)
  {
    var c := WithSource(ctx, "hooks");
    tr := t;
    var i := 0;
    while i < |hooks|
      invariant 0 <= i <= |hooks|
      invariant RunAll(HookStep(o, ctx), hooks, t) == RunAll(HookStep(o, ctx), hooks[i..], tr)
      decreases |hooks| - i
    {
      var hook := hooks[i];
      assert hooks[i..][0] == hook && hooks[i..][1..] == hooks[i + 1..];
      var result := o.run(tr, Invocation("sh", ["-c", hook], c));
      tr := tr + [Ran(Invocation("sh", ["-c", hook], c), result)];
      if result.error.Failed? {
        err := Failed(HookFailureText(hook, result.exitCode, result.error.msg));
        return;
      }
      i := i + 1;
    }
    err := Ok;
  }

  // The job steps.

  /**
   * initRepo: a probe error is returned without Init; an initialised repository is left as
   * it is; otherwise the repository is initialised and Init's outcome returned.
   */
  function InitRepo(o: Oracle, ctx: Ctx, t: Trace, repo: Repository): (Trace, Status) {
    var probe := Restic.IsRepoInitialized(o, ctx, t, repo);
    if probe.2.Failed? then (probe.0, probe.2)
    else if probe.1 then (probe.0, Ok)
    else Restic.Init(o, ctx, probe.0, repo)
  }

  lemma InitRepoCases(o: Oracle, ctx: Ctx, t: Trace, repo: Repository)
    ensures var probe := Restic.IsRepoInitialized(o, ctx, t, repo);
      var r := InitRepo(o, ctx, t, repo);
      (probe.2.Failed? ==> r == (probe.0, probe.2) && |r.0| == |t| + 1)
      && (probe.1 ==> r == (probe.0, Ok) && |r.0| == |t| + 1)
      && (!probe.1 && probe.2 == Ok ==> r == Restic.Init(o, ctx, probe.0, repo) && |r.0| == |t| + 2)
  {
  }

  /** The steps a job is made of. */
  datatype Stage =
    | InitRepoStage(repo: Repository)
    | BackupStage(job: Job)
    | CopyStage(job: Job)
    | CheckStage(repo: Repository)
    | ForgetStage(repo: Repository)

  function StageRun(o: Oracle, ctx: Ctx, s: Stage, t: Trace): (Trace, Status) {
    match s
    case InitRepoStage(repo) => InitRepo(o, ctx, t, repo)
    case BackupStage(job) => if job.BackupJob? then Restic.Backup(o, ctx, t, job) else (t, Ok)
    case CopyStage(job) => if job.CopyJob? then Restic.Copy(o, ctx, t, job) else (t, Ok)
    case CheckStage(repo) => Restic.Check(o, ctx, t, repo)
    case ForgetStage(repo) => Restic.Forget(o, ctx, t, repo)
  }

  function RunStage(o: Oracle, ctx: Ctx): Step<Stage> {
    (s: Stage, t: Trace) => StageRun(o, ctx, s, t)
  }

  /** Applying the stage step is running the stage. */
  lemma StageStep(o: Oracle, ctx: Ctx, s: Stage, t: Trace)
    ensures RunStage(o, ctx)(s, t) == StageRun(o, ctx, s, t)
  {
  }

  /** backup: initRepo(To), Backup, Check(To), Forget(To), returning at the first error. */
  function BackupJobRun(o: Oracle, ctx: Ctx, b: Job, t: Trace): (Trace, Status)
    requires b.BackupJob?
  {
    var r1 := InitRepo(o, ctx, t, b.to);
    if r1.1.Failed? then r1 else
    var r2 := Restic.Backup(o, ctx, r1.0, b);
    if r2.1.Failed? then r2 else
    var r3 := Restic.Check(o, ctx, r2.0, b.to);
    if r3.1.Failed? then r3 else
    var r4 := Restic.Forget(o, ctx, r3.0, b.to);
    if r4.1.Failed? then r4 else (r4.0, Ok)
  }

  /** copy: initRepo(From), initRepo(To), Copy, Check(To), Forget(To), returning at the first error. */
  function CopyJobRun(o: Oracle, ctx: Ctx, c: Job, t: Trace): (Trace, Status)
    requires c.CopyJob?
  {
    var r1 := InitRepo(o, ctx, t, c.from);
    if r1.1.Failed? then r1 else
    var r2 := InitRepo(o, ctx, r1.0, c.to);
    if r2.1.Failed? then r2 else
    var r3 := Restic.Copy(o, ctx, r2.0, c);
    if r3.1.Failed? then r3 else
    var r4 := Restic.Check(o, ctx, r3.0, c.to);
    if r4.1.Failed? then r4 else
    var r5 := Restic.Forget(o, ctx, r4.0, c.to);
    if r5.1.Failed? then r5 else (r5.0, Ok)
  }

  function BackupStages(b: Job): seq<Stage>
    requires b.BackupJob?
  {
    [InitRepoStage(b.to), BackupStage(b), CheckStage(b.to), ForgetStage(b.to)]
  }

  function CopyStages(c: Job): seq<Stage>
    requires c.CopyJob?
  {
    [InitRepoStage(c.from), InitRepoStage(c.to), CopyStage(c), CheckStage(c.to), ForgetStage(c.to)]
  }

  /**
   * A backup job is exactly the sequence of its four stages stopped at the first error, so
   * the facts about sequential runs (World.RunAllFailure, World.RunAllSuccess) apply to it.
   */
  lemma BackupIsStageSequence(o: Oracle, ctx: Ctx, b: Job, t: Trace)
    requires b.BackupJob?
    ensures BackupJobRun(o, ctx, b, t) == RunAll(RunStage(o, ctx), BackupStages(b), t)
  {
    var step := RunStage(o, ctx);
    var xs := BackupStages(b);
    RunAllStep(step, xs, t);
    assert xs[0] == InitRepoStage(b.to) && xs[1..] == [BackupStage(b), CheckStage(b.to), ForgetStage(b.to)];
    StageStep(o, ctx, xs[0], t);
    var r1 := step(xs[0], t);
    if r1.1.Ok? {
      var ys := xs[1..];
      RunAllStep(step, ys, r1.0);
      assert ys[0] == BackupStage(b) && ys[1..] == [CheckStage(b.to), ForgetStage(b.to)];
      StageStep(o, ctx, ys[0], r1.0);
      CheckForgetStages(o, ctx, b.to, step(ys[0], r1.0).0);
    }
  }

  /** The last two stages of both job kinds: check, then forget, stopping at the first error. */
  lemma CheckForgetStages(o: Oracle, ctx: Ctx, repo: Repository, t: Trace)
    ensures RunAll(RunStage(o, ctx), [CheckStage(repo), ForgetStage(repo)], t) ==
      var r1 := Restic.Check(o, ctx, t, repo);
      if r1.1.Failed? then r1 else
      var r2 := Restic.Forget(o, ctx, r1.0, repo);
      if r2.1.Failed? then r2 else (r2.0, Ok)
  {
    var step := RunStage(o, ctx);
    RunAllTwo(step, CheckStage(repo), ForgetStage(repo), t);
    StageStep(o, ctx, CheckStage(repo), t);
    StageStep(o, ctx, ForgetStage(repo), step(CheckStage(repo), t).0);
  }

  /** The stages after the two initializations of a copy job: copy, check, then forget. */
  lemma CopyCheckForgetStages(o: Oracle, ctx: Ctx, c: Job, t: Trace)
    requires c.CopyJob?
    ensures RunAll(RunStage(o, ctx), [CopyStage(c), CheckStage(c.to), ForgetStage(c.to)], t) ==
      var r3 := Restic.Copy(o, ctx, t, c);
      if r3.1.Failed? then r3 else
      var r4 := Restic.Check(o, ctx, r3.0, c.to);
      if r4.1.Failed? then r4 else
      var r5 := Restic.Forget(o, ctx, r4.0, c.to);
      if r5.1.Failed? then r5 else (r5.0, Ok)
  {
    var step := RunStage(o, ctx);
    var xs := [CopyStage(c), CheckStage(c.to), ForgetStage(c.to)];
    RunAllStep(step, xs, t);
    assert xs[1..] == [CheckStage(c.to), ForgetStage(c.to)];
    StageStep(o, ctx, CopyStage(c), t);
    CheckForgetStages(o, ctx, c.to, step(CopyStage(c), t).0);
  }

  /** A copy job is exactly the sequence of its five stages stopped at the first error. */
  lemma CopyIsStageSequence(o: Oracle, ctx: Ctx, c: Job, t: Trace)
    requires c.CopyJob?
    ensures CopyJobRun(o, ctx, c, t) == RunAll(RunStage(o, ctx), CopyStages(c), t)
  {
    var step := RunStage(o, ctx);
    var xs := CopyStages(c);
    RunAllStep(step, xs, t);
    assert xs[0] == InitRepoStage(c.from);
    assert xs[1..] == [InitRepoStage(c.to), CopyStage(c), CheckStage(c.to), ForgetStage(c.to)];
    StageStep(o, ctx, xs[0], t);
    var r1 := step(xs[0], t);
    if r1.1.Ok? {
      var ys := xs[1..];
      RunAllStep(step, ys, r1.0);
      assert ys[1..] == [CopyStage(c), CheckStage(c.to), ForgetStage(c.to)];
      StageStep(o, ctx, ys[0], r1.0);
      CopyCheckForgetStages(o, ctx, c, step(ys[0], r1.0).0);
    }
  }

  /** doJob: dispatch on the job's kind. */
  function DoJob(o: Oracle): Do {
    (ctx: Ctx, j: Job, t: Trace) =>
      match j
      case BackupJob(_, _, _, _, _, _, _, _) => BackupJobRun(o, ctx, j, t)
      case CopyJob(_, _, _, _, _, _, _) => CopyJobRun(o, ctx, j, t)
  }

  /** The per-job function Handle builds: chain(doJob, healthcheck middleware, hook middleware). */
  function Pipeline(o: Oracle): Do {
    Nest(DoJob(o), [HealthMw(o.newRid), HookMw(HookRunner(o))])
  }

  /** The health middleware is outermost: the hooks run between the start and the closing signal. */
  lemma PipelineNesting(o: Oracle)
    ensures Pipeline(o) == HealthMw(o.newRid)(HookMw(HookRunner(o))(DoJob(o)))
  {
    var ms := [HealthMw(o.newRid), HookMw(HookRunner(o))];
    assert ms[1..] == [HookMw(HookRunner(o))];
    assert ms[1..][1..] == [];
    assert Nest(DoJob(o), ms[1..][1..]) == DoJob(o);
    assert Nest(DoJob(o), ms[1..]) == HookMw(HookRunner(o))(DoJob(o));
  }

  /**
   * A failing before hook of a job with a health URL is reported by a fail signal whose
   * text is the "before hooks failed" error, and that error is the job's result.
   */
  lemma BeforeHookFailureSignalled(o: Oracle, ctx: Ctx, j: Job, t: Trace)
    requires j.healthcheckUrl != ""
    requires var start := Signal(StartPing, j.healthcheckUrl, o.newRid(t), Payload(j.name, ""));
      HookRunner(o)(HookEnv(ctx, j.name, Ok), j.hooks.before, t + [start]).1.Failed?
    ensures var start := Signal(StartPing, j.healthcheckUrl, o.newRid(t), Payload(j.name, ""));
      var before := HookRunner(o)(HookEnv(ctx, j.name, Ok), j.hooks.before, t + [start]);
      var r := Pipeline(o)(ctx, j, t);
      r.1 == BeforeHooksFailed(before.1)
      && |r.0| > 0
      && r.0[|r.0| - 1] == Signal(FailPing, j.healthcheckUrl, o.newRid(t),
                                  Payload(j.name, "before hooks failed: " + before.1.msg))
  {
    PipelineNesting(o);
    var inner := HookMw(HookRunner(o))(DoJob(o));
    HealthMwSignals(o.newRid, inner, ctx, j, t);
    var start := Signal(StartPing, j.healthcheckUrl, o.newRid(t), Payload(j.name, ""));
    HookMwBeforeFailure(HookRunner(o), DoJob(o), DoJob(o), ctx, j, t + [start]);
  }

  // The batch.

  /**
   * The batch as Handle runs it: every job, in order, each from the trace the previous one
   * left, whatever their outcomes. Yields the final trace and each job's outcome.
   */
  function Batch(fn: Do, ctx: Ctx, jobs: seq<Job>, t: Trace): (r: (Trace, seq<Status>))
    ensures |r.1| == |jobs|
    decreases |jobs|
  {
    if jobs == [] then (t, [])
    else
      var prev := Batch(fn, ctx, jobs[..|jobs| - 1], t);
      var run := fn(ctx, jobs[|jobs| - 1], prev.0);
      (run.0, prev.1 + [run.1])
  }

  /**
   * Job i runs exactly once, from the trace the jobs before it left, whatever their
   * outcomes: its outcome is the i-th outcome of the batch, and its trace is what the
   * batch of the first i + 1 jobs ends in.
   */
  lemma {:induction false} BatchRunsJob(fn: Do, ctx: Ctx, jobs: seq<Job>, t: Trace, i: int)
    requires 0 <= i < |jobs|
    ensures var run := fn(ctx, jobs[i], Batch(fn, ctx, jobs[..i], t).0);
      Batch(fn, ctx, jobs, t).1[i] == run.1 && Batch(fn, ctx, jobs[..i + 1], t).0 == run.0
    decreases |jobs|
  {
    var n := |jobs| - 1;
    var init := jobs[..n];
    var prev := Batch(fn, ctx, init, t);
    assert Batch(fn, ctx, jobs, t).1 == prev.1 + [fn(ctx, jobs[n], prev.0).1];
    if i < n {
      BatchRunsJob(fn, ctx, init, t, i);
      assert init[..i] == jobs[..i] && init[..i + 1] == jobs[..i + 1] && init[i] == jobs[i];
      assert Batch(fn, ctx, jobs, t).1[i] == prev.1[i];
    } else {
      assert jobs[..i + 1] == jobs && jobs[..i] == init;
    }
  }

  /** The aggregator after the batch: each failed job's name mapped to its error text, the last write winning. */
  function Failures(jobs: seq<Job>, outcomes: seq<Status>): map<string, string>
    requires |outcomes| == |jobs|
    decreases |jobs|
  {
    if jobs == [] then map[]
    else
      var n := |jobs| - 1;
      var m := Failures(jobs[..n], outcomes[..n]);
      if outcomes[n].Failed? then m[jobs[n].name := outcomes[n].msg] else m
  }

  /** Index `i` is the last job named `k`. */
  ghost predicate LastNamed(jobs: seq<Job>, k: string, i: int) {
    0 <= i < |jobs| && jobs[i].name == k && forall j :: i < j < |jobs| ==> jobs[j].name != k
  }

  /**
   * A name is recorded exactly when some job of that name failed, and the recorded text is
   * the error of the last failing job of that name.
   */
  lemma {:induction false} FailuresRecordFailedJobs(jobs: seq<Job>, outcomes: seq<Status>, k: string)
    requires |outcomes| == |jobs|
    ensures k in Failures(jobs, outcomes) <==>
      exists i :: 0 <= i < |jobs| && jobs[i].name == k && outcomes[i].Failed?
    ensures k in Failures(jobs, outcomes) ==>
      exists i :: 0 <= i < |jobs| && jobs[i].name == k && outcomes[i].Failed?
        && Failures(jobs, outcomes)[k] == outcomes[i].msg
        && forall j :: i < j < |jobs| && jobs[j].name == k ==> !outcomes[j].Failed?
    decreases |jobs|
  {
    if jobs != [] {
      var n := |jobs| - 1;
      var js := jobs[..n];
      var os := outcomes[..n];
      FailuresRecordFailedJobs(js, os, k);
      if outcomes[n].Failed? && jobs[n].name == k {
        assert Failures(jobs, outcomes)[k] == outcomes[n].msg;
      } else {
        assert Failures(jobs, outcomes) == (if outcomes[n].Failed? then Failures(js, os)[jobs[n].name := outcomes[n].msg] else Failures(js, os));
        if exists i :: 0 <= i < |jobs| && jobs[i].name == k && outcomes[i].Failed? {
          var i :| 0 <= i < |jobs| && jobs[i].name == k && outcomes[i].Failed?;
          assert i < n;
          assert js[i] == jobs[i] && os[i] == outcomes[i];
        }
        if k in Failures(js, os) {
          var i :| 0 <= i < |js| && js[i].name == k && os[i].Failed?
            && Failures(js, os)[k] == os[i].msg
            && forall j :: i < j < |js| && js[j].name == k ==> !os[j].Failed?;
          assert jobs[i] == js[i] && outcomes[i] == os[i];
          forall j | i < j < |jobs| && jobs[j].name == k ensures !outcomes[j].Failed? {
            if j < n { assert js[j] == jobs[j] && os[j] == outcomes[j]; }
          }
        }
      }
    }
  }

  /** No failure at all is exactly an empty aggregator. */
  lemma FailuresEmpty(jobs: seq<Job>, outcomes: seq<Status>)
    requires |outcomes| == |jobs|
    ensures Failures(jobs, outcomes) == map[] <==> forall i :: 0 <= i < |jobs| ==> outcomes[i] == Ok
  {
    if Failures(jobs, outcomes) == map[] {
      forall i | 0 <= i < |jobs| ensures outcomes[i] == Ok {
        if outcomes[i].Failed? {
          FailuresRecordFailedJobs(jobs, outcomes, jobs[i].name);
        }
      }
    } else {
      var k :| k in Failures(jobs, outcomes);
      FailuresRecordFailedJobs(jobs, outcomes, k);
    }
  }

  /** A backup command: the jobs and the dry-run flag. */
  datatype Command = Command(jobs: seq<Job>, dryRun: bool)

  /** The context the jobs run in: dry-run set when the command asks for it. */
  function JobCtx(ctx: Ctx, cmd: Command): (c: Ctx)
    ensures c == ctx.(dryRun := ctx.dryRun || cmd.dryRun)
  {
    if cmd.dryRun then WithDryRun(ctx) else ctx
  }

  /**
   * Handle: runs every job through the pipeline in order, whatever the earlier outcomes, and
   * returns null when no job failed, otherwise a fresh aggregator holding every failed job's
   * name with its (last) error.
   */
  method Handle(o: Oracle, ctx: Ctx, cmd: Command, t: Trace) returns (tr: Trace, err: JobListError?)
    ensures var b := Batch(Pipeline(o), JobCtx(ctx, cmd), cmd.jobs, t);
      tr == b.0
      && (err == null <==> forall i :: 0 <= i < |cmd.jobs| ==> b.1[i] == Ok)
      && (err != null ==> fresh(err) && err.errors == Failures(cmd.jobs, b.1))
  {
    var c := JobCtx(ctx, cmd);
    var fn := ChainJobs(DoJob(o), [HealthMw(o.newRid), HookMw(HookRunner(o))]);
    var jobErrors := new JobListError();
    ghost var outcomes: seq<Status> := [];
    tr := t;
    var i := 0;
    while i < |cmd.jobs|
      invariant 0 <= i <= |cmd.jobs|
      invariant (tr, outcomes) == Batch(Pipeline(o), c, cmd.jobs[..i], t)
      invariant jobErrors.errors == Failures(cmd.jobs[..i], outcomes)
      decreases |cmd.jobs| - i
    {
      var job := cmd.jobs[i];
      assert cmd.jobs[..i + 1][..i] == cmd.jobs[..i];
      var run := fn(c, job, tr);
      tr := run.0;
      outcomes := outcomes + [run.1];
      assert outcomes[..i] == outcomes[..|outcomes| - 1];
      if run.1.Failed? {
        jobErrors.Add(job.name, run.1.msg);
      }
      i := i + 1;
    }
    assert cmd.jobs[..|cmd.jobs|] == cmd.jobs;
    FailuresEmpty(cmd.jobs, outcomes);
    if jobErrors.HasErrors() {
      err := jobErrors;
    } else {
      err := null;
    }
  }
}
