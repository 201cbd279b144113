/**
 * The per-job middlewares of the backup use case: internal/cases/backup/mw.go (the `chain`
 * fold over `do` functions), hooks.go (before / failure / success hooks with the job's
 * name and error in the environment) and healthcheck.go (start, then fail or success
 * signals under one run id).
 */
module BackupMw {
  import opened Wrappers
  import opened RunContext
  import opened Entity
  import opened World
  import opened HandlerChain

  /** `do`: func(ctx, job) error, acting on the trace. */
  type Do = Handler<Job, Trace>

  /** `mw`: func(do) do. */
  type Mw = Middleware<Job, Trace>

  /** chain: the same reverse fold as handler.Chain, over job functions. */
  method ChainJobs<S>(base: Handler<Job, S>, ms: seq<Middleware<Job, S>>) returns (r: Handler<Job, S>)
    ensures r == Nest(base, ms)
  {
    r := base;
    var i := |ms|;
    while i > 0
      invariant 0 <= i <= |ms|
      invariant r == Nest(base, ms[i..])
      decreases i
    {
      i := i - 1;
      assert ms[i..][0] == ms[i] && ms[i..][1..] == ms[i + 1..];
      r := ms[i](r);
    }
  }

  /** The stack the source's test of `chain` expects: mw1 outermost, mw2 next to the base. */
  lemma JobChainStack(ctx: Ctx, j: Job)
    ensures Nest(PushBase(), [Labelled("mw1"), Labelled("mw2")])(ctx, j, []) ==
      (["mw1: before", "mw2: before", "base", "mw2: after", "mw1: after"], Ok)
  {
    TwoMiddlewareStack<Job>(ctx, j);
  }

  // Hooks.

  /** The hookExecutor interface: runs a list of hook commands in a context. */
  type HookExecutor = (Ctx, seq<string>, Trace) -> (Trace, Status)

  /**
   * withEnv: the hook environment holds CRESTIC_JOB_NAME, and CRESTIC_ERROR exactly when
   * there is an error; nothing else of the context changes.
   */
  function HookEnv(ctx: Ctx, jobName: string, err: Status): (c: Ctx)
    ensures c == ctx.(env := c.env)
    ensures "CRESTIC_JOB_NAME" in c.env && c.env["CRESTIC_JOB_NAME"] == jobName
    ensures "CRESTIC_ERROR" in c.env <==> err.Failed?
    ensures err.Failed? ==> c.env["CRESTIC_ERROR"] == err.msg
    ensures forall k :: k in c.env ==> k == "CRESTIC_JOB_NAME" || k == "CRESTIC_ERROR"
  {
    var env := map["CRESTIC_JOB_NAME" := jobName];
    RunContext.WithEnv(ctx, if err.Failed? then env["CRESTIC_ERROR" := err.msg] else env)
  }

  /** The error the hook middleware returns when the before hooks fail. */
  function BeforeHooksFailed(err: Status): Status
    requires err.Failed?
  {
    Failed("before hooks failed: " + err.msg)
  }

  /** newHookMw: before hooks, the job, then failure hooks (result dropped) or success hooks. */
  function HookMw(h: HookExecutor): Mw {
    (fn: Do) =>
      (ctx: Ctx, j: Job, t: Trace) =>
        var before := h(HookEnv(ctx, j.name, Ok), j.hooks.before, t);
        if before.1.Failed? then
          var failure := h(HookEnv(ctx, j.name, before.1), j.hooks.failure, before.0);
          (failure.0, BeforeHooksFailed(before.1))
        else
          var run := fn(ctx, j, before.0);
          if run.1.Failed? then
            var failure := h(HookEnv(ctx, j.name, run.1), j.hooks.failure, run.0);
            (failure.0, run.1)
          else
            h(HookEnv(ctx, j.name, Ok), j.hooks.success, run.0)
  }

  /**
   * Failing before hooks: the job is never called (any two jobs give the same outcome), the
   * failure hooks run with CRESTIC_ERROR set to the hooks' error, their own result is
   * dropped, and the error is wrapped as "before hooks failed".
   */
  lemma HookMwBeforeFailure(h: HookExecutor, fn: Do, other: Do, ctx: Ctx, j: Job, t: Trace)
    requires h(HookEnv(ctx, j.name, Ok), j.hooks.before, t).1.Failed?
    ensures var before := h(HookEnv(ctx, j.name, Ok), j.hooks.before, t);
      HookMw(h)(fn)(ctx, j, t) ==
        (h(HookEnv(ctx, j.name, before.1), j.hooks.failure, before.0).0, BeforeHooksFailed(before.1))
    ensures HookMw(h)(fn)(ctx, j, t) == HookMw(h)(other)(ctx, j, t)
  {
  }

  /**
   * A failing job: after it the failure hooks run with its error in CRESTIC_ERROR, their
   * result is dropped and the job's own error comes back unchanged; success hooks never run.
   */
  lemma HookMwJobFailure(h: HookExecutor, fn: Do, ctx: Ctx, j: Job, t: Trace)
    requires h(HookEnv(ctx, j.name, Ok), j.hooks.before, t).1 == Ok
    requires fn(ctx, j, h(HookEnv(ctx, j.name, Ok), j.hooks.before, t).0).1.Failed?
    ensures var run := fn(ctx, j, h(HookEnv(ctx, j.name, Ok), j.hooks.before, t).0);
      HookMw(h)(fn)(ctx, j, t) == (h(HookEnv(ctx, j.name, run.1), j.hooks.failure, run.0).0, run.1)
  {
  }

  /** A successful job: the success hooks run without CRESTIC_ERROR and their result is the result. */
  lemma HookMwJobSuccess(h: HookExecutor, fn: Do, ctx: Ctx, j: Job, t: Trace)
    requires h(HookEnv(ctx, j.name, Ok), j.hooks.before, t).1 == Ok
    requires fn(ctx, j, h(HookEnv(ctx, j.name, Ok), j.hooks.before, t).0).1 == Ok
    ensures var run := fn(ctx, j, h(HookEnv(ctx, j.name, Ok), j.hooks.before, t).0);
      HookMw(h)(fn)(ctx, j, t) == h(HookEnv(ctx, j.name, Ok), j.hooks.success, run.0)
      && "CRESTIC_ERROR" !in HookEnv(ctx, j.name, Ok).env
  {
  }

  // Health signals.

  /**
   * newHealthcheckMw: without a URL the job runs as it is; with one, a start signal, the job,
   * then a fail signal carrying the error text or a success signal, all under the run id the
   * oracle yields at entry. Signals record no outcome: their errors are dropped.
   */
  function HealthMw(newRid: Trace -> string): Mw {
    (fn: Do) =>
      (ctx: Ctx, j: Job, t: Trace) =>
        var url := j.healthcheckUrl;
        if url == "" then fn(ctx, j, t)
        else
          var rid := newRid(t);
          var p := Payload(j.name, "");
          var run := fn(ctx, j, t + [Signal(StartPing, url, rid, p)]);
          if run.1.Failed? then
            (run.0 + [Signal(FailPing, url, rid, p.(err := run.1.msg))], run.1)
          else
            (run.0 + [Signal(SuccessPing, url, rid, p)], Ok)
  }

  /** An empty URL: the job is called once and its outcome, trace included, passes through. */
  lemma HealthMwNoUrl(newRid: Trace -> string, fn: Do, ctx: Ctx, j: Job, t: Trace)
    requires j.healthcheckUrl == ""
    ensures HealthMw(newRid)(fn)(ctx, j, t) == fn(ctx, j, t)
  {
  }

  /**
   * With a URL: the job's error is returned unchanged, the job runs after exactly one start
   * signal, and exactly one closing signal follows it, fail carrying the error text or
   * success, both under the start signal's run id.
   */
  lemma HealthMwSignals(newRid: Trace -> string, fn: Do, ctx: Ctx, j: Job, t: Trace)
    requires j.healthcheckUrl != ""
    ensures var rid := newRid(t);
      var start := Signal(StartPing, j.healthcheckUrl, rid, Payload(j.name, ""));
      var run := fn(ctx, j, t + [start]);
      var r := HealthMw(newRid)(fn)(ctx, j, t);
      r.1 == run.1
      && |r.0| == |run.0| + 1 && r.0[..|run.0|] == run.0
      && r.0[|run.0|] == (if run.1.Failed?
                          then Signal(FailPing, j.healthcheckUrl, rid, Payload(j.name, run.1.msg))
                          else Signal(SuccessPing, j.healthcheckUrl, rid, Payload(j.name, "")))
  {
    var rid := newRid(t);
    var start := Signal(StartPing, j.healthcheckUrl, rid, Payload(j.name, ""));
    var run := fn(ctx, j, t + [start]);
    var r := HealthMw(newRid)(fn)(ctx, j, t);
    assert r.0[..|run.0|] == run.0;
  }
}
