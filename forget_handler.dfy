/**
 * internal/cases/forget/handler.go: `crestic forget` applies each chosen repository's
 * retention policy, one repository after the other, with the --prune flag written into the
 * repository's own forget options first; it stops at the first error.
 */
module ForgetHandler {
  import opened Wrappers
  import opened RunContext
  import opened Entity
  import opened Seqs
  import opened World
  import OptionArgs
  import Restic

  /** The Go runtime's panic on an assignment into a nil map. */
  const NilMapPanic := "assignment to entry in nil map"

  /** The repository after `r.ForgetOptions["prune"] = prune`; a nil map stays as it is (the assignment panics). */
  function WithPrune(r: Repository, prune: bool): (r': Repository)
    ensures r.forgetOptions.Nil? ==> r' == r
    ensures r.forgetOptions.Options? ==>
      r'.forgetOptions.Options? && r'.forgetOptions.entries == r.forgetOptions.entries["prune" := VBool(prune)]
      && r' == r.(forgetOptions := r'.forgetOptions)
  {
    if r.forgetOptions.Nil? then r
    else r.(forgetOptions := Options(r.forgetOptions.entries["prune" := VBool(prune)]))
  }

  /** The context forget runs in: dry-run set when the command asks for it. */
  function ForgetCtx(ctx: Ctx, dryRun: bool): (c: Ctx)
    ensures c == ctx.(dryRun := ctx.dryRun || dryRun)
  {
    if dryRun then WithDryRun(ctx) else ctx
  }

  /**
   * forget for one repository: a nil option map panics, which stops the command with an
   * error; otherwise restic forget runs over the options with "prune" set.
   */
  function ForgetRepo(o: Oracle, ctx: Ctx, dryRun: bool, prune: bool, repo: Repository, t: Trace): (Trace, Status) {
    if repo.forgetOptions.Nil? then (t, Failed(NilMapPanic))
    else Restic.Forget(o, ForgetCtx(ctx, dryRun), t, WithPrune(repo, prune))
  }

  function ForgetStep(o: Oracle, ctx: Ctx, dryRun: bool, prune: bool): Step<Repository> {
    (repo: Repository, t: Trace) => ForgetRepo(o, ctx, dryRun, prune, repo, t)
  }

  /**
   * The loop of Handle over the shared repository values, for any per-repository step: each
   * repository handed to the step has its "prune" option overwritten in place, the rest are
   * left alone, and the outcome is that of running the step over the repositories in order
   * up to the first error.
   */
  method ForgetLoop(step: Step<Repository>, repos: array<Repository>, prune: bool, t: Trace)
    returns (tr: Trace, err: Status)
    modifies repos
    ensures (tr, err) == RunAll(step, old(repos[..]), t)
    ensures var n := Processed(step, old(repos[..]), t);
      forall j :: 0 <= j < repos.Length ==>
        repos[j] == if j < n then WithPrune(old(repos[j]), prune) else old(repos[j])
  {
    ghost var orig := repos[..];
    tr := t;
    var i := 0;
    assert orig[0..] == orig;
    while i < repos.Length
      invariant 0 <= i <= repos.Length
      invariant RunAll(step, orig, t) == RunAll(step, orig[i..], tr)
      invariant Processed(step, orig, t) == i + Processed(step, orig[i..], tr)
      invariant forall j :: 0 <= j < i ==> repos[j] == WithPrune(orig[j], prune)
      invariant forall j :: i <= j < repos.Length ==> repos[j] == orig[j]
    {
      RunAllAt(step, orig, i, tr);
      var repo := repos[i];
      var r := step(repo, tr);
      if !repo.forgetOptions.Nil? {
        repos[i] := WithPrune(repo, prune);
      }
      if r.1.Failed? {
        return r.0, r.1;
      }
      tr := r.0;
      i := i + 1;
    }
    assert orig[i..] == [];
    err := Ok;
  }

  /**
   * Handle: forget over the chosen repositories in order, stopping at the first error, with
   * the "prune" option written into each repository handed to forget.
   */
  method Handle(o: Oracle, ctx: Ctx, repos: array<Repository>, dryRun: bool, prune: bool, t: Trace)
    returns (tr: Trace, err: Status)
    modifies repos
    ensures (tr, err) == RunAll(ForgetStep(o, ctx, dryRun, prune), old(repos[..]), t)
    ensures var n := Processed(ForgetStep(o, ctx, dryRun, prune), old(repos[..]), t);
      forall j :: 0 <= j < repos.Length ==>
        repos[j] == if j < n then WithPrune(old(repos[j]), prune) else old(repos[j])
  {
    tr, err := ForgetLoop(ForgetStep(o, ctx, dryRun, prune), repos, prune, t);
  }

  /**
   * With --prune, and the option keys listed in an order that enumerates them, the forget
   * arguments include "--prune".
   */
  lemma PruneReachesRestic(r: Repository, order: seq<string>)
    requires r.forgetOptions.Options?
    requires IsEnumeration(order, WithPrune(r, true).forgetOptions.Entries().Keys)
    ensures "--prune" in OptionArgs.ToArgs(WithPrune(r, true).forgetOptions, order)
  {
    var m := WithPrune(r, true).forgetOptions.Entries();
    assert "prune" in order;
    var i :| 0 <= i < |order| && order[i] == "prune";
    assert OptionArgs.FormatFlag("prune") == "--prune" by {
      assert !OptionArgs.HasFlagHyphen("prune") by { assert "prune"[..1] == "p"; }
    }
    assert OptionArgs.EntryArgs(m)(order[i]) == ["--prune"];
    FlatMapContains(OptionArgs.EntryArgs(m), order, i, "--prune");
  }
}
