/**
 * internal/cases/check/handler.go: `crestic check` verifies the chosen repositories one after
 * the other, initialising a repository that does not exist yet, and stops at the first error.
 */
module CheckHandler {
  import opened Wrappers
  import opened RunContext
  import opened Entity
  import opened World
  import Restic
  import BackupHandler

  /**
   * checkRepo: the same initialise-if-needed rule as the backup handler's initRepo, then
   * restic check; check runs only when that succeeded.
   */
  function CheckRepo(o: Oracle, ctx: Ctx, t: Trace, repo: Repository): (Trace, Status) {
    var init := BackupHandler.InitRepo(o, ctx, t, repo);
    if init.1.Failed? then init else Restic.Check(o, ctx, init.0, repo)
  }

  /**
   * An initialisation failure is the outcome and nothing else runs; otherwise the outcome
   * is that of exactly one restic check appended after initialisation.
   */
  lemma CheckRepoRunsCheckLast(o: Oracle, ctx: Ctx, t: Trace, repo: Repository)
    ensures var init := BackupHandler.InitRepo(o, ctx, t, repo);
      var r := CheckRepo(o, ctx, t, repo);
      (init.1.Failed? ==> r == init)
      && (init.1.Ok? ==> Restic.RanOnce(o, ctx, init.0, r, "check", repo))
  {
    var init := BackupHandler.InitRepo(o, ctx, t, repo);
    Restic.RepositoryCommandsRunOnce(o, ctx, init.0, repo, "", "", "", []);
  }

  function CheckStep(o: Oracle, ctx: Ctx): Step<Repository> {
    (repo: Repository, t: Trace) => CheckRepo(o, ctx, t, repo)
  }

  /** Handle: every repository in order, returning the first error. */
  method Handle(o: Oracle, ctx: Ctx, repos: seq<Repository>, t: Trace) returns (tr: Trace, err: Status)
    ensures (tr, err) == RunAll(CheckStep(o, ctx), repos, t)
  {
    tr := t;
    var i := 0;
    assert repos[0..] == repos;
    while i < |repos|
      invariant 0 <= i <= |repos|
      invariant RunAll(CheckStep(o, ctx), repos, t) == RunAll(CheckStep(o, ctx), repos[i..], tr)
    {
      RunAllStep(CheckStep(o, ctx), repos[i..], tr);
      assert repos[i..][0] == repos[i] && repos[i..][1..] == repos[i + 1..];
      var r := CheckRepo(o, ctx, tr, repos[i]);
      if r.1.Failed? {
        return r.0, r.1;
      }
      tr := r.0;
      i := i + 1;
    }
    assert repos[i..] == [];
    err := Ok;
  }
}
