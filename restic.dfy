/**
 * internal/restic/runner.go and internal/restic/repository.go: the restic command lines the
 * service builds, how it reads restic's exit codes, and the errors it reports. Every restic
 * run goes through the runner, which tags the context and inserts "--json" in JSON mode.
 */
module Restic {
  import opened Wrappers
  import opened RunContext
  import opened Entity
  import opened Strings
  import opened World
  import OptionArgs

  /** Backup exit status when some source data could not be read (missing extended attributes). */
  const ExitMissingXAttrs := 3

  /** Exit status of `restic stats` when the repository does not exist. */
  const ExitRepoDoesNotExist := 10

  // The runner.

  /**
   * The arguments the runner passes on: in JSON mode with at least one argument, "--json"
   * right after the subcommand, everything else in its original order.
   */
  function JsonArgs(jsonMode: bool, args: seq<string>): (r: seq<string>)
    ensures jsonMode && |args| > 0 ==>
      |r| == |args| + 1 && r[0] == args[0] && r[1] == "--json" && r[2..] == args[1..]
    ensures !(jsonMode && |args| > 0) ==> r == args
  {
    if jsonMode && |args| > 0 then [args[0], "--json"] + args[1..] else args
  }

  /**
   * resticRunner.Run's rewrite of the arguments, as the source performs it: a new slice
   * grown by three appends, leaving the caller's slice as it was.
   */
  method RunnerArgs(ctx: Ctx, args: seq<string>) returns (r: seq<string>)
    ensures r == JsonArgs(ctx.jsonMode, args)
  {
    r := args;
    if ctx.jsonMode && |args| > 0 {
      var newArgs: seq<string> := [];
      newArgs := newArgs + [args[0]];
      newArgs := newArgs + ["--json"];
      newArgs := newArgs + args[1..];
      r := newArgs;
    }
  }

  /** What the runner hands to the shell executor: "restic", the rewritten arguments, the tagged context. */
  function RunnerInvocation(ctx: Ctx, args: seq<string>): (inv: Invocation)
    ensures inv.service == "restic" && inv.ctx.source == "restic"
    ensures inv.args == JsonArgs(ctx.jsonMode, args)
  {
    Invocation("restic", JsonArgs(ctx.jsonMode, args), WithSource(ctx, "restic"))
  }

  /** One restic run through the runner, recorded in the trace. */
  function Run(o: Oracle, ctx: Ctx, t: Trace, args: seq<string>): (r: (Trace, ShellResult))
    ensures r.0 == t + [Ran(RunnerInvocation(ctx, args), r.1)]
    ensures r.1 == o.run(t, RunnerInvocation(ctx, args))
  {
    World.Exec(o, t, RunnerInvocation(ctx, args))
  }

  // Error reporting.

  /** The text fmt.Errorf produces for "repository %s: restic %s failed [exit code %d]: %w". */
  function FailureText(repoName: string, cmdName: string, exitCode: int, cause: string): string {
    "repository " + repoName + ": restic " + cmdName + " failed [exit code " + Itoa(exitCode) + "]: " + cause
  }

  /**
   * toErr: nil exactly when the run reported no error; otherwise an error naming the
   * repository, the subcommand and the exit code, and ending with the run's own error.
   */
  function ToErr(res: ShellResult, repo: Repository, cmdName: string): (s: Status)
    ensures s.Ok? <==> res.error.Ok?
    ensures s.Failed? ==>
      var head := "repository " + repo.name + ": restic " + cmdName + " failed [exit code "
        + Itoa(res.exitCode) + "]: ";
      |s.msg| == |head| + |res.error.msg| && s.msg[..|head|] == head && s.msg[|head|..] == res.error.msg
  {
    if res.error.Ok? then Ok
    else
      var head := "repository " + repo.name + ": restic " + cmdName + " failed [exit code "
        + Itoa(res.exitCode) + "]: ";
      var m := FailureText(repo.name, cmdName, res.exitCode, res.error.msg);
      assert m == head + res.error.msg;
      Failed(m)
  }

  // Argument lists.

  /** The repository flags every subcommand carries: "-r <path> --password-command <cmd>". */
  function RepoFlags(repo: Repository): seq<string> {
    ["-r", repo.path, "--password-command", repo.passwordCmd]
  }

  function InitArgs(repo: Repository): seq<string> { ["init"] + RepoFlags(repo) }

  function StatsArgs(repo: Repository): seq<string> { ["stats"] + RepoFlags(repo) }

  function CheckArgs(repo: Repository): seq<string> { ["check"] + RepoFlags(repo) }

  function UnlockArgs(repo: Repository): seq<string> { ["unlock"] + RepoFlags(repo) }

  /** "--dry-run" in dry-run mode, nothing otherwise. */
  function DryRunFlag(ctx: Ctx): (r: seq<string>)
    ensures r == [] <==> !ctx.dryRun
  {
    if ctx.dryRun then ["--dry-run"] else []
  }

  /**
   * The arguments of `restic backup`: subcommand and repository flags, "--dry-run" only in
   * dry-run mode, then the job's option flags (with the keys in `order`), then the sources.
   */
  function BackupArgs(ctx: Ctx, b: Job, order: seq<string>): (r: seq<string>)
    requires b.BackupJob?
    ensures |r| >= 5 && r[..5] == ["backup", "-r", b.to.path, "--password-command", b.to.passwordCmd]
    ensures var k := if ctx.dryRun then 6 else 5;
      var opts := OptionArgs.ToArgs(b.options, order);
      |r| == k + |opts| + |b.sources|
      && (ctx.dryRun ==> r[5] == "--dry-run")
      && r[k..k + |opts|] == opts
      && r[k + |opts|..] == b.sources
  {
    ["backup"] + RepoFlags(b.to) + DryRunFlag(ctx) + OptionArgs.ToArgs(b.options, order) + b.sources
  }

  /** The arguments of `restic forget`: "--dry-run" only in dry-run mode, before the forget options. */
  function ForgetArgs(ctx: Ctx, repo: Repository, order: seq<string>): (r: seq<string>)
    ensures |r| >= 5 && r[..5] == ["forget", "-r", repo.path, "--password-command", repo.passwordCmd]
    ensures var k := if ctx.dryRun then 6 else 5;
      |r| == k + |OptionArgs.ToArgs(repo.forgetOptions, order)|
      && (ctx.dryRun ==> r[5] == "--dry-run")
      && r[k..] == OptionArgs.ToArgs(repo.forgetOptions, order)
  {
    ["forget"] + RepoFlags(repo) + DryRunFlag(ctx) + OptionArgs.ToArgs(repo.forgetOptions, order)
  }

  /** The arguments of `restic copy`: destination first, then the source repository, then options. */
  function CopyArgs(c: Job, order: seq<string>): (r: seq<string>)
    requires c.CopyJob?
    ensures |r| >= 9 && r[..9] == ["copy", "-r", c.to.path, "--from-repo", c.from.path,
      "--password-command", c.to.passwordCmd, "--from-password-command", c.from.passwordCmd]
    ensures r[9..] == OptionArgs.ToArgs(c.options, order)
  {
    ["copy", "-r", c.to.path, "--from-repo", c.from.path,
      "--password-command", c.to.passwordCmd, "--from-password-command", c.from.passwordCmd]
    + OptionArgs.ToArgs(c.options, order)
  }

  /** The arguments of `restic restore`: the target, the repository flags, and the snapshot last. */
  function RestoreArgs(repo: Repository, target: string, snapshot: string): (r: seq<string>)
    ensures |r| == 8 && r[0] == "restore" && r[1..3] == ["--target", target]
    ensures r[3..7] == RepoFlags(repo) && r[|r| - 1] == snapshot
  {
    ["restore", "--target", target] + RepoFlags(repo) + [snapshot]
  }

  /** The arguments of Exec: the user's command first, the repository flags, then the user's arguments. */
  function ExecArgs(repo: Repository, cmd: string, args: seq<string>): (r: seq<string>)
    ensures |r| == 5 + |args| && r[0] == cmd
    ensures r[1..5] == RepoFlags(repo) && r[5..] == args
  {
    [cmd] + RepoFlags(repo) + args
  }

  // The service operations. Each runs restic once through the runner, except Copy in
  // dry-run mode, which runs nothing. The option-map iteration order comes from the oracle.

  function Init(o: Oracle, ctx: Ctx, t: Trace, repo: Repository): (Trace, Status)
  {
    var run := Run(o, ctx, t, InitArgs(repo));
    (run.0, ToErr(run.1, repo, "init"))
  }

  /**
   * IsRepoInitialized probes with a silenced `restic stats`: exit code 10 means not
   * initialised (and no error); otherwise initialised exactly when the run succeeded, and a
   * failed run is reported through toErr.
   */
  function IsRepoInitialized(o: Oracle, ctx: Ctx, t: Trace, repo: Repository): (r: (Trace, bool, Status))
    ensures var run := Run(o, WithSilence(ctx), t, StatsArgs(repo));
      r.0 == run.0
      && (run.1.exitCode == ExitRepoDoesNotExist ==> !r.1 && r.2 == Ok)
      && (run.1.exitCode != ExitRepoDoesNotExist ==> (r.1 <==> run.1.error.Ok?))
      && (run.1.exitCode != ExitRepoDoesNotExist ==> r.2 == ToErr(run.1, repo, "stats"))
    ensures r.1 ==> r.2 == Ok
  {
    var run := Run(o, WithSilence(ctx), t, StatsArgs(repo));
    if run.1.exitCode == ExitRepoDoesNotExist then (run.0, false, Ok)
    else if run.1.error.Ok? then (run.0, true, Ok)
    else (run.0, false, ToErr(run.1, repo, "stats"))
  }

  /** Backup: exit code 3 is no error when the job ignores missing extended attributes. */
  function Backup(o: Oracle, ctx: Ctx, t: Trace, b: Job): (r: (Trace, Status))
    requires b.BackupJob?
    ensures var run := Run(o, ctx, t, BackupArgs(ctx, b, o.keyOrder(t, b.options.Entries())));
      r.0 == run.0
      && (b.ignoreMissingXAttrsError && run.1.exitCode == ExitMissingXAttrs ==> r.1 == Ok)
      && (!(b.ignoreMissingXAttrsError && run.1.exitCode == ExitMissingXAttrs) ==>
            r.1 == ToErr(run.1, b.to, "backup"))
  {
    var run := Run(o, ctx, t, BackupArgs(ctx, b, o.keyOrder(t, b.options.Entries())));
    if b.ignoreMissingXAttrsError && run.1.exitCode == ExitMissingXAttrs then (run.0, Ok)
    else (run.0, ToErr(run.1, b.to, "backup"))
  }

  function Check(o: Oracle, ctx: Ctx, t: Trace, repo: Repository): (Trace, Status)
  {
    var run := Run(o, ctx, t, CheckArgs(repo));
    (run.0, ToErr(run.1, repo, "check"))
  }

  function Forget(o: Oracle, ctx: Ctx, t: Trace, repo: Repository): (Trace, Status)
  {
    var run := Run(o, ctx, t, ForgetArgs(ctx, repo, o.keyOrder(t, repo.forgetOptions.Entries())));
    (run.0, ToErr(run.1, repo, "forget"))
  }

  /** The text of Copy's own error: "repository <to>: restic copy from <from> failed [exit code N]: <err>". */
  function CopyFailureText(c: Job, exitCode: int, cause: string): string
    requires c.CopyJob?
  {
    "repository " + c.to.name + ": restic copy from " + c.from.name + " failed [exit code "
      + Itoa(exitCode) + "]: " + cause
  }

  /** Copy: in dry-run mode nothing runs and the result is nil; otherwise one run and its own error text. */
  function Copy(o: Oracle, ctx: Ctx, t: Trace, c: Job): (r: (Trace, Status))
    requires c.CopyJob?
    ensures ctx.dryRun ==> r == (t, Ok)
    ensures !ctx.dryRun ==>
      var run := Run(o, ctx, t, CopyArgs(c, o.keyOrder(t, c.options.Entries())));
      r.0 == run.0
      && (r.1.Ok? <==> run.1.error.Ok?)
      && (r.1.Failed? ==> r.1.msg == CopyFailureText(c, run.1.exitCode, run.1.error.msg))
  {
    if ctx.dryRun then (t, Ok)
    else
      var run := Run(o, ctx, t, CopyArgs(c, o.keyOrder(t, c.options.Entries())));
      if run.1.error.Ok? then (run.0, Ok)
      else (run.0, Failed(CopyFailureText(c, run.1.exitCode, run.1.error.msg)))
  }

  function Restore(o: Oracle, ctx: Ctx, t: Trace, repo: Repository, target: string, snapshot: string): (Trace, Status)
  {
    var run := Run(o, ctx, t, RestoreArgs(repo, target, snapshot));
    (run.0, ToErr(run.1, repo, "restore"))
  }

  /** Exec reports failures under the user's command name. */
  function Exec(o: Oracle, ctx: Ctx, t: Trace, repo: Repository, cmd: string, args: seq<string>): (Trace, Status)
  {
    var run := Run(o, ctx, t, ExecArgs(repo, cmd, args));
    (run.0, ToErr(run.1, repo, cmd))
  }

  function Unlock(o: Oracle, ctx: Ctx, t: Trace, repo: Repository): (Trace, Status)
  {
    var run := Run(o, ctx, t, UnlockArgs(repo));
    (run.0, ToErr(run.1, repo, "unlock"))
  }

  // Properties across operations.

  /** In JSON mode the subcommand stays first, so restic still sees it as the subcommand. */
  lemma JsonKeepsSubcommand(ctx: Ctx, args: seq<string>)
    requires |args| > 0
    ensures JsonArgs(ctx.jsonMode, args)[0] == args[0]
    ensures multiset(JsonArgs(ctx.jsonMode, args)) ==
      if ctx.jsonMode then multiset(args) + multiset{"--json"} else multiset(args)
  {
    if ctx.jsonMode {
      assert args == [args[0]] + args[1..];
    }
  }

  /** Dry-run mode changes the backup command only by inserting "--dry-run" after the repository flags. */
  lemma BackupDryRunInsertion(ctx: Ctx, b: Job, order: seq<string>)
    requires b.BackupJob?
    ensures var plain := BackupArgs(ctx.(dryRun := false), b, order);
      BackupArgs(ctx.(dryRun := true), b, order) == plain[..5] + ["--dry-run"] + plain[5..]
  {
  }

  /**
   * A command run through the runner: the trace grows by exactly that run, the subcommand
   * stays the first argument, the repository flags are among the arguments, and the outcome
   * is nil exactly when the run reported no error, otherwise toErr's text for it.
   */
  ghost predicate RanOnce(o: Oracle, ctx: Ctx, t: Trace, r: (Trace, Status), subcommand: string, repo: Repository) {
    |r.0| == |t| + 1 && r.0[..|t|] == t
    && r.0[|t|].Ran?
    && var inv := r.0[|t|].inv;
      inv.service == "restic" && |inv.args| > 0 && inv.args[0] == subcommand
      && inv.ctx == WithSource(ctx, "restic")
      && r.0[|t|].result == o.run(t, inv)
      && (r.1.Ok? <==> r.0[|t|].result.error.Ok?)
      && (r.1.Failed? ==> HasPrefix(r.1.msg, "repository " + repo.name + ": restic " + subcommand))
      && r.1 == ToErr(r.0[|t|].result, repo, subcommand)
      && multiset(RepoFlags(repo)) <= multiset(inv.args)
  }

  /** The repository flags occur among any arguments that embed them. */
  lemma RepoFlagsAmong(pre: seq<string>, repo: Repository, post: seq<string>)
    ensures multiset(RepoFlags(repo)) <= multiset(pre + RepoFlags(repo) + post)
  {
  }

  /** One run through the runner of arguments holding the repository flags at `k`, reported by toErr. */
  lemma RunReported(o: Oracle, ctx: Ctx, t: Trace, args: seq<string>, repo: Repository, k: int)
    requires 0 < k && k + 4 <= |args| && args[k..k + 4] == RepoFlags(repo)
    ensures var run := Run(o, ctx, t, args);
      RanOnce(o, ctx, t, (run.0, ToErr(run.1, repo, args[0])), args[0], repo)
  {
    var run := Run(o, ctx, t, args);
    var pre := "repository " + repo.name + ": restic " + args[0];
    var head := pre + " failed [exit code " + Itoa(run.1.exitCode) + "]: ";
    assert head[..|pre|] == pre;
    assert run.0[..|t|] == t;
    FlagsReachRunner(ctx, args, repo, k);
  }

  /** The runner's rewrite keeps the repository flags among the arguments. */
  lemma FlagsReachRunner(ctx: Ctx, args: seq<string>, repo: Repository, k: int)
    requires 0 < k && k + 4 <= |args| && args[k..k + 4] == RepoFlags(repo)
    ensures multiset(RepoFlags(repo)) <= multiset(JsonArgs(ctx.jsonMode, args))
  {
    assert args == args[..k] + RepoFlags(repo) + args[k + 4..];
    RepoFlagsAmong(args[..k], repo, args[k + 4..]);
    JsonKeepsSubcommand(ctx, args);
  }

  lemma InitRunsOnce(o: Oracle, ctx: Ctx, t: Trace, repo: Repository)
    ensures RanOnce(o, ctx, t, Init(o, ctx, t, repo), "init", repo)
  {
    RunReported(o, ctx, t, InitArgs(repo), repo, 1);
  }

  lemma CheckRunsOnce(o: Oracle, ctx: Ctx, t: Trace, repo: Repository)
    ensures RanOnce(o, ctx, t, Check(o, ctx, t, repo), "check", repo)
  {
    RunReported(o, ctx, t, CheckArgs(repo), repo, 1);
  }

  lemma ForgetRunsOnce(o: Oracle, ctx: Ctx, t: Trace, repo: Repository)
    ensures RanOnce(o, ctx, t, Forget(o, ctx, t, repo), "forget", repo)
  {
    var fa := ForgetArgs(ctx, repo, o.keyOrder(t, repo.forgetOptions.Entries()));
    assert fa[1..5] == fa[..5][1..];
    RunReported(o, ctx, t, fa, repo, 1);
  }

  lemma RestoreRunsOnce(o: Oracle, ctx: Ctx, t: Trace, repo: Repository, target: string, snapshot: string)
    ensures RanOnce(o, ctx, t, Restore(o, ctx, t, repo, target, snapshot), "restore", repo)
  {
    RunReported(o, ctx, t, RestoreArgs(repo, target, snapshot), repo, 3);
  }

  lemma ExecRunsOnce(o: Oracle, ctx: Ctx, t: Trace, repo: Repository, cmd: string, args: seq<string>)
    ensures RanOnce(o, ctx, t, Exec(o, ctx, t, repo, cmd, args), cmd, repo)
  {
    RunReported(o, ctx, t, ExecArgs(repo, cmd, args), repo, 1);
  }

  lemma UnlockRunsOnce(o: Oracle, ctx: Ctx, t: Trace, repo: Repository)
    ensures RanOnce(o, ctx, t, Unlock(o, ctx, t, repo), "unlock", repo)
  {
    RunReported(o, ctx, t, UnlockArgs(repo), repo, 1);
  }

  /** Init, Check, Forget, Restore, Exec and Unlock each run restic once and report through toErr. */
  lemma RepositoryCommandsRunOnce(o: Oracle, ctx: Ctx, t: Trace, repo: Repository,
                                   target: string, snapshot: string, cmd: string, args: seq<string>)
    ensures RanOnce(o, ctx, t, Init(o, ctx, t, repo), "init", repo)
    ensures RanOnce(o, ctx, t, Check(o, ctx, t, repo), "check", repo)
    ensures RanOnce(o, ctx, t, Forget(o, ctx, t, repo), "forget", repo)
    ensures RanOnce(o, ctx, t, Restore(o, ctx, t, repo, target, snapshot), "restore", repo)
    ensures RanOnce(o, ctx, t, Exec(o, ctx, t, repo, cmd, args), cmd, repo)
    ensures RanOnce(o, ctx, t, Unlock(o, ctx, t, repo), "unlock", repo)
  {
    InitRunsOnce(o, ctx, t, repo);
    CheckRunsOnce(o, ctx, t, repo);
    ForgetRunsOnce(o, ctx, t, repo);
    RestoreRunsOnce(o, ctx, t, repo, target, snapshot);
    ExecRunsOnce(o, ctx, t, repo, cmd, args);
    UnlockRunsOnce(o, ctx, t, repo);
  }

  /** Copy runs restic once, except in dry-run mode, where the trace is left as it was. */
  lemma CopyRunsUnlessDryRun(o: Oracle, ctx: Ctx, t: Trace, c: Job)
    requires c.CopyJob?
    ensures |Copy(o, ctx, t, c).0| == (if ctx.dryRun then |t| else |t| + 1)
  {
  }
}
